# Event planner: a verified model of its rules

This project models the rules of an event-planning application in Dafny and proves
properties of the model. The application has a Django back end and a Next.js front end.

Organizations are founded by an owner. The owner invites administrators by e-mail, using
organization invitations that expire after a week. Organizers create events and give them
sessions and speakers. They invite attendees by e-mail, using attendee invitations that move
between pending, accepted, rejected, cancelled and expired.

The public registers for events. A registration is confirmed while places remain and is
waitlisted after that. Accounts are activated by a verification code, and passwords are
reset through reset requests. Notifications are stored, and each one ends sent, failed or
pending. A management command sends reminders before events start. A public view lists,
pages and searches the published events.

The front-end pages are modelled through their state and handlers. These are the
registration and verify-email pages, the invitation-acceptance form, the team-invite modal,
the pending-invitations list and the event card.

The database is one `Database` object (`Store`) holding one table per model. Each table is
a sequence of records, and a counter hands out the fresh ids and tokens. Its invariant
`Valid()` says that every stored id and token is below that counter. Each service method
changes only the tables it names in `modifies`.

Each method's contract states its new state and result in terms of the old state and its
inputs, with the conditions for success. A failure path returns a `Result` error:
- `Invalid` for a `ValidationError`;
- `NotFound` and `PermissionDenied` for the matching exceptions;
- `Crash` for an exception the code does not mean to raise.

A failure leaves the tables as an atomic block would leave them.

Where the code does something other than what it evidently intends, the model follows the
code, and a lemma exhibits the behaviour:

- `NotificationType.ATTENDEE_INVITED` does not exist, so sending an attendee invitation's
  e-mail always raises. Each address in a bulk send is then counted as skipped, and its
  invitation row is kept. See `AttendeeInvitations.BulkSendNeverSends`.
- An organization invitation's `resend_invitation` writes `expires_at`, a field the model
  does not have. The stored expiry is therefore never extended. See
  `OrgInvitationService.ResendInvitation`.
- `verify_invitation_token` reads an `accepted` attribute that does not exist, so an invalid
  invitation always fails with an attribute error. See
  `OrgInvitationService.VerifyInvitationToken`.
- `OwnerPermission` lists the `ROLES` class instead of a role name, so it never grants. See
  `Permissions.OwnerNeverGrants`.
- Two missing organizations compare equal, so a caller with no organization may manage the
  events of a creator with none. See `AttendeeInvitations.NoOrganizationGrants`.
- An attendee admitted from an invitation is confirmed whether or not it is a VIP. See
  `AttendeeInvitations.AcceptedAlwaysConfirmed`.
- A notification on the SMS channel always ends failed, with "Failed to generate". See
  `Notifications.Dispatch`.
- An organization's creator is already linked by the post-save signal, so the service's own
  linking step never acts. See `OrganizationService.FallbackNeverActs`.
- `update_session` and `update_attendee_status` do not re-check the rules that creation
  enforces. See `Sessions.UpdateCanClash` and `Attendees.StatusUpdateCanOverbook`.

The models file `apps/events/models.py` lacks several fields the services use:
`AttendeeInvitation`, `Event.status`, `Event.is_full`, `Event.end_datetime`,
`Event.duration_hours`, `Event.is_public`, `Session.end_time`, `Session.duration_hours`,
`Attendee.phone` and `Attendee.user`. The model follows the services and adds those fields.

## Model

| member | source | states |
|---|---|---|
| Users.NormalizeEmail | apps/users/models.py:36 | an address whose stripped form contains `@` keeps its local part and gets its domain, after the last `@`, lower-cased; an address without `@` is kept as it is |
| Users.NormalizeEmailIdempotent | apps/users/models.py:36 | normalising a normalised address gives it back unchanged |
| Users.CreateUser | apps/users/models.py:32-51 | a blank e-mail raises "Email must be provided"; a normalised e-mail already taken breaks the unique column; otherwise exactly one user is appended with the normalised e-mail and the given role, organization and flags; e-mail uniqueness is preserved |
| Users.RoleDefaults | apps/users/models.py:53-76 | exactly the three role names have defaults: owners are staff and superuser, admins staff only, members neither |
| Users.CreateWithRoleDefaults | apps/users/models.py:53-76 | the user created carries the role's name and that role's staff and superuser flags, and succeeds exactly when `create_user` would |
| Users.CreateUserWithRole | apps/users/models.py:19-30 | a missing or empty role raises "Role is required", any other unknown role "Invalid role", both before saving; a known role creates one inactive user of that role with no organization |
| Users.ActiveVerifyRequests | apps/users/models.py:14-16 | the rows kept are exactly the active verification requests |
| Users.ActivePasswordResets | apps/users/models.py:108-114 | the rows kept are exactly the active password-reset requests |
| OrganizationModels.InvalidStaysInvalid | apps/organizations/models.py:89-93 | an organization invitation that is not valid at some instant (accepted, or past its expiry) is not valid at any later instant |
| OrganizationModels.SaveExpiry | apps/organizations/models.py:83-87 | an expiry already set is kept; a missing one becomes seven days after now |
| OrganizationModels.SaveExpiryStable | apps/organizations/models.py:83-87 | saving a saved invitation again, at any later time, keeps the expiry the first save stored |
| OrganizationModels.NewOrgInvitation | apps/organizations/models.py:52-87 | a newly created invitation is unaccepted, has no acceptor and expires a week after now; it is valid from now up to and including that instant and invalid just after |
| OrganizationModels.SaveSlug | apps/organizations/models.py:44-47 | a given slug is kept; an empty one is derived from the name |
| OrganizationModels.SaveSlugStable | apps/organizations/models.py:44-47 | once a slug is stored, saving again keeps it even after the name changes |
| OrganizationService.GetUserOrganization | services/organization/organization_service.py:46-62 | the organization returned is one the user created; the lookup fails, with "User is not associated with any organization", exactly when the user created none |
| OrganizationService.CanCreateIffNoOrganization | services/organization/organization_service.py:64-75 | a user may create an organization exactly when `get_user_organization` would fail for that user |
| OrganizationService.SignalStep | apps/organizations/signals.py:11-17 | the creator ends up pointing at the new organization, with nothing else about the user changed |
| OrganizationService.FallbackStep | services/organization/organization_service.py:38-41 | a user with no organization gets the new one; a user who has one is left alone |
| OrganizationService.FallbackNeverActs | services/organization/organization_service.py:38-41 | after the post-save signal has run, the service's own linking step changes nothing, and the creator always ends linked to the new organization |
| OrganizationService.SetCreatorOrganization | apps/organizations/signals.py:6-17 | a save that did not create the organization, or one with no creator, changes nothing; otherwise the creator's row alone is linked, and a missing creator row is the update error |
| OrganizationService.CreateOrganization | services/organization/organization_service.py:12-43 | a user who has already created an organization is refused with "You already have an organization."; success happens exactly when the name and the defaulted slug are free and the user's row exists, and then one organization is appended with the user as creator and only that user's row is relinked; a failure leaves both tables unchanged |
| OrganizationService.FoundOrganization | services/organization/organization_service.py:32-41 | a new organization with the name and slug, created by the user, is added and the creator's organization becomes the new one; nothing else changes |
| OrgInvitationService.OpenIndex | apps/organizations/services/invitation_service.py:33-36 | the position found holds a not yet accepted invitation of the organization for the e-mail; none is found only when no such invitation exists |
| OrgInvitationService.SendCheck | apps/organizations/services/invitation_service.py:23-39 | in this order: a sender who is not the creator is refused, an e-mail that already has an account is refused, and an open invitation that is still valid is refused; the send goes ahead exactly when all three pass |
| OrgInvitationService.AfterSend | apps/organizations/services/invitation_service.py:41-48 | the new invitation is in the table, and every other row was there before |
| OrgInvitationService.AfterSendUnique | apps/organizations/services/invitation_service.py:41-48 | after a send the new invitation is the only open one for its organization and e-mail, and the unique pair is kept when no accepted invitation held it |
| OrgInvitationService.SendInvitation | apps/organizations/services/invitation_service.py:10-55 | a failed check is returned as it is; an accepted invitation for the pair makes the creation break the unique pair, and everything is rolled back; otherwise the open invitations for the pair and their notifications are deleted, one fresh invitation with a new token and a week's expiry is created, and an invitation notification is added for it |
| OrgInvitationService.SendInTransaction | apps/organizations/services/invitation_service.py:41-55 | the atomic block leaves exactly the state of a successful send and keeps the pairs unique |
| OrgInvitationService.ReplaceOpen | apps/organizations/services/invitation_service.py:42-48 | the open invitations for the pair are replaced by one new invitation with a fresh key and token, and the notifications of the deleted ones are cascaded away |
| OrgInvitationService.OpenById | apps/organizations/services/invitation_service.py:91-94 | the position found holds the organization's not yet accepted invitation with that key; none is found only when every such invitation is accepted |
| OrgInvitationService.CancelInvitation | apps/organizations/services/invitation_service.py:77-96 | a non-owner is refused and an invitation missing or already accepted is not found, with nothing changed; otherwise exactly that invitation and its notifications are deleted and every other invitation stays |
| OrgInvitationService.InvitationByToken | apps/organizations/services/invitation_service.py:109-114 | the row found has the token; none is found only when no row has it |
| OrgInvitationService.VerifyInvitationToken | apps/organizations/services/invitation_service.py:98-127 | an unknown token is not found; an invalid invitation always fails, on the missing `accepted` attribute; success happens exactly for a valid invitation whose organization and inviter exist, and gives its e-mail, the organization's name, the inviter's name and the expiry |
| OrgInvitationService.AcceptCheck | apps/organizations/services/invitation_service.py:148-152 | a valid invitation passes; an invalid one is refused as accepted when its flag is set, otherwise as expired when it has expired; one with `accepted_at` set but no flag, and not expired, passes |
| OrgInvitationService.AcceptStep | apps/organizations/services/invitation_service.py:168-172 | the invitation becomes accepted, now, by the new user; its key, token, e-mail, organization, inviter and expiry are unchanged |
| OrgInvitationService.AcceptedOnce | apps/organizations/services/invitation_service.py:148-150 | an invitation once accepted is refused as accepted at any later instant, and is never valid again |
| OrgInvitationService.AcceptInvitation | apps/organizations/services/invitation_service.py:129-183 | acceptance succeeds exactly when the token is found, its organization exists, the validity test passes, and the invited address is non-empty and has no account either as written or normalised; an unknown token is not found; a failed validity test or an address with an account is refused; any failure changes nothing; on success one active staff organization admin of the invitation's organization is appended with the normalised address, and only that invitation is marked accepted by the new user |
| OrgInvitationService.ResendInvitation | apps/organizations/services/invitation_service.py:185-218 | a non-owner is refused and a missing or accepted invitation is not found; otherwise one invitation notification is appended and the invitation is returned as stored, its expiry never extended |
| OrgInvitationService.ValidateAcceptPasswords | apps/organizations/serializers/invitation_serializer.py:36-40 | the acceptance is refused with "Password not matched." exactly when the two passwords differ |
| OrgInvitationService.JoinAsAdmin | apps/organizations/services/invitation_service.py:155-172 | succeeds exactly when the invited address is non-empty and its normalised form has no account; a failure leaves users and invitations as they were; otherwise one active staff, non-superuser org-admin user of the invitation's organization with the normalised invited address is added, the invitation is marked accepted by them, and addresses stay unique |
| Permissions.RoleText | core/middleware/permission.py:8 | a user's role reads as its name, and a missing role as the text "None" |
| Permissions.OwnerNeverGrants | core/middleware/permission.py:4-13 | `OwnerPermission` refuses every request, whatever the role, since its list holds the `ROLES` class rather than a name |
| Permissions.SingleRoleClasses | core/middleware/permission.py:15-35 | `AdminPermission` grants exactly organization admins and `MemberPermission` exactly members |
| Permissions.OwnerOrAdminExactly | core/middleware/permission.py:37-46 | `OwnerOrAdminPermission` grants exactly owners and admins |
| Permissions.AllUserExactly | core/middleware/permission.py:48-57 | `AllUserPermission` grants exactly the three known roles |
| Permissions.NoRoleDenied | core/middleware/permission.py:7-13 | a user without a role is refused by every permission class |
| AuthService.IsAuthenticated | backend/services/auth/auth_service.py:15-28 | an unknown e-mail, a wrong password and an inactive account each fail with their own message, checked in that order; the user returned is active and has that e-mail and password, and with unique e-mails such a user is always returned |
| AuthService.ActiveVerifyIndex | backend/services/auth/auth_service.py:48 | the request found is active and has the token; none is found only when no active request has it |
| AuthService.RegisterUserWithRole | backend/services/auth/auth_service.py:30-44 | succeeds exactly when the role is one of the three, the e-mail is non-empty and its normalised form has no account, the token and code are used by no stored request, and the mail goes out; a role outside the three is refused first; any failure leaves the users and the requests unchanged; success appends one inactive user of that role with the normalised e-mail and one active verification request for it, with a five-minute expiry, and keeps tokens and codes unique |
| AuthService.VerifyUserRegistration | backend/services/auth/auth_service.py:42 | one active request with the token, the code and a five-minute expiry is stored exactly when the mail goes out and neither the token nor the code is taken; otherwise nothing is stored |
| AuthService.VerifyRegisteredUser | backend/services/auth/auth_service.py:46-67 | no active request for the token, an expired request and a wrong code each fail, with nothing changed; the right code activates exactly the account with the request's e-mail and deactivates that request alone |
| AuthService.DeactivatedTokenGone | backend/services/auth/auth_service.py:61-63 | once its request is deactivated, a token finds no active request, so it cannot verify twice |
| AuthService.ResendActivationToken | backend/services/auth/auth_service.py:69-87 | an unknown token fails; an unexpired request is left as it is, with "Token is still valid."; for an expired one, a new code another request holds is the unique-column error and a failed mail fails with its own message, and otherwise it gets the new code and a one-minute expiry and stays active; a failure changes nothing |
| AuthService.ActiveResetByEmail | backend/services/auth/auth_service.py:95 | the request found is active and for the e-mail; none is found only when no such request exists |
| AuthService.CreatePasswordResetRequest | backend/services/auth/auth_service.py:89-111 | succeeds exactly when the user exists, there is no active unexpired request for the address, no other request holds the new token, and the mail goes out; an unknown e-mail and an active unexpired request are refused; a taken token is the unique-column error; any failure changes nothing; tokens stay unique; on success, an expired request found gets the new token and expiry in place, and otherwise one active request is appended |
| AuthService.WriteReset | backend/services/auth/auth_service.py:100-104 | the found request alone gets the new token and expiry, or with none found one active request for the address is appended; a token no other row holds keeps reset tokens unique |
| AuthService.ActiveReset | backend/services/auth/auth_service.py:118 | the request found is active and matches both e-mail and token; none is found only when no such request exists |
| AuthService.PerformResetPassword | backend/services/auth/auth_service.py:113-147 | the password changes exactly when an active, unexpired request matches the decoded e-mail and the token, that user exists and the mail goes out; then only that user's password and that request's activity change; a failure changes nothing |
| AuthService.UsedResetGone | backend/services/auth/auth_service.py:135-137 | once used, a reset request matches its e-mail and token no more, so it cannot be used twice while reset tokens are unique |
| Notifications.DefaultTemplate | services/notification/notification_service.py:170-363 | a template is written out exactly for the e-mail channel of the eight types the table lists, with blank websocket fields; every other type and channel pair gets the generic template |
| Notifications.RenderContent | services/notification/notification_service.py:109-137 | on the e-mail and websocket channels the rendered pair is returned, or the fallback when rendering raises; on any other channel nothing is returned |
| Notifications.Dispatch | services/notification/notification_service.py:48-97 | the record keeps the type, channel, recipient and links it was given and is never delivered; it is sent, stamped now, exactly when it is an e-mail the backend accepted; a refused e-mail is failed with the backend's error; a websocket record stays pending; any other channel fails with the "Failed to generate" texts and the unpacking error |
| Notifications.TemplateIndex | services/notification/notification_service.py:102-106 | the template found is for the type and channel; none is found only when no stored template is |
| Notifications.GetTemplate | services/notification/notification_service.py:99-107 | a stored template for the pair is returned and nothing changes; otherwise exactly one template with the default content is added and returned |
| Notifications.SendNotification | services/notification/notification_service.py:21-97 | every call appends exactly one notification record, whatever fails, and the record is the one `Dispatch` describes for the template now stored for the pair |
| Notifications.SendRegistration | services/notification/notification_service.py:377-398 | one attendee-registered e-mail to the attendee, linked to the event only, is appended, and it ends sent or failed |
| Notifications.StatusUpdateType | services/notification/notification_service.py:403-412 | confirmed, rejected and waitlisted map to their own notification types; pending, absent from the map, maps to none |
| Notifications.SendStatusUpdate | services/notification/notification_service.py:400-432 | nothing is stored for a status the map lacks; otherwise one e-mail of the mapped type to the attendee, linked to the event, is appended |
| Notifications.ConfirmedOf | services/notification/notification_service.py:437-438 | the attendees kept are exactly the event's confirmed attendees |
| Notifications.SendCancellation | services/notification/notification_service.py:434-460 | one cancellation e-mail per target attendee, in order, is appended and returned; the targets are the given set, or by default the event's confirmed attendees |
| Notifications.SendOrgInvitation | services/notification/notification_service.py:466-487 | one organization-invitation e-mail to the invited address, linked to the organization and the invitation, is appended |
| Notifications.StoreNotification | services/notification/notification_service.py:48-97 | exactly one record with a fresh id is appended, and it is the one `Dispatch` describes for the given template |
| Notifications.SendCancellationTo | services/notification/notification_service.py:442-458 | one event-cancelled e-mail to that attendee, linked to the event, is appended |
| Notifications.SendCancellations | services/notification/notification_service.py:440-460 | one cancellation e-mail per target, in the targets' order, is appended and returned, and nothing else is appended |
| AttendeeInvitationSerializer.ValidateEmails | apps/events/serializers/attendee_invitation_serializer.py:23-40 | an empty list and a list of more than 100 are refused, each with its message; otherwise the loop's result is the input with its case-insensitive repeats dropped |
| AttendeeInvitationSerializer.DedupStep | apps/events/serializers/attendee_invitation_serializer.py:34-38 | one more input e-mail is appended to the kept list exactly when its lower-cased form has not been seen |
| AttendeeInvitationSerializer.LowersAppend | apps/events/serializers/attendee_invitation_serializer.py:37 | the seen set after appending an e-mail is the old set plus that e-mail lower-cased |
| AttendeeInvitationSerializer.DedupNoCaseDuplicates | apps/events/serializers/attendee_invitation_serializer.py:31-40 | no two kept e-mails are equal ignoring case |
| AttendeeInvitationSerializer.DedupCovers | apps/events/serializers/attendee_invitation_serializer.py:31-40 | every input e-mail has a case-insensitive match among the kept ones, and no other e-mail is kept |
| AttendeeInvitationSerializer.DedupSubsequence | apps/events/serializers/attendee_invitation_serializer.py:31-40 | the kept e-mails appear in the input in the same order |
| AttendeeInvitationSerializer.DedupKeepsFirst | apps/events/serializers/attendee_invitation_serializer.py:31-40 | the first e-mail of each case-insensitive group is kept, in its own case |
| AttendeeInvitationSerializer.DedupFromInput | apps/events/serializers/attendee_invitation_serializer.py:31-40 | every kept e-mail was in the input |
| AttendeeInvitationSerializer.ValidateFullName | apps/events/serializers/attendee_invitation_serializer.py:70-74 | a name is refused exactly when it has fewer than two characters once stripped; an accepted name is stored stripped |
| AttendeeInvitationSerializer.FullNameIdempotent | apps/events/serializers/attendee_invitation_serializer.py:70-74 | validating an accepted name again gives the same result |
| AttendeeInvitationSerializer.ValidatePhone | apps/events/serializers/attendee_invitation_serializer.py:76-80 | a blank phone passes as it is; any other is refused exactly when it has fewer than ten characters once stripped, and is stored stripped |
| AttendeeInvitationSerializer.PhoneIdempotent | apps/events/serializers/attendee_invitation_serializer.py:76-80 | validating an accepted phone again gives the same result |
| AttendeeInvitationSerializer.ByToken | apps/events/serializers/attendee_invitation_serializer.py:91-93 | the invitation found has the token; none is found only when no invitation has it |
| AttendeeInvitationSerializer.ValidateAcceptToken | apps/events/serializers/attendee_invitation_serializer.py:88-103 | an unknown token is refused; the token passes exactly when its invitation can be accepted; otherwise the message names the status when it is not pending, then the expiry, and else says it cannot be accepted now |
| AttendeeInvitationSerializer.ValidateRejectToken | apps/events/serializers/attendee_invitation_serializer.py:111-124 | an unknown token, a status other than pending and an expiry are refused in that order; the token passes exactly for a pending, unexpired invitation |
| AttendeeInvitations.NoOrganizationGrants | services/attendee/attendee_invitation_service.py:234-240 | a caller who did not create the event and has no organization may manage it when its creator has none either |
| AttendeeInvitations.SendOne | services/attendee/attendee_invitation_service.py:40-63 | each address is counted as skipped with one error line: an already invited or registered address leaves the rows alone, any other adds one pending row with the lower-cased address and a week to respond |
| AttendeeInvitations.NewInvitation | services/attendee/attendee_invitation_service.py:49-55 | the new row is pending, for the event and inviter, with the lower-cased address, no response and a week to respond |
| AttendeeInvitations.SendAllCounts | services/attendee/attendee_invitation_service.py:35-70 | across the loop every address adds one to the skipped count and one error line, the earlier errors are kept, and none is counted as sent |
| AttendeeInvitations.SendAllCreates | services/attendee/attendee_invitation_service.py:39-63 | the loop only appends rows, each a pending invitation of the event for the lower-cased form of one of the addresses, with a week to respond |
| AttendeeInvitations.SendInvitations | services/attendee/attendee_invitation_service.py:17-70 | a caller who may not manage the event is refused with nothing written; otherwise the loop's summary is returned with the number attempted, and the table holds the rows it created |
| AttendeeInvitations.SendAllStep | services/attendee/attendee_invitation_service.py:40 | the loop over one more address is one more step after the loop over the earlier ones |
| AttendeeInvitations.BulkSendNeverSends | services/attendee/attendee_invitation_service.py:57-63 | a bulk send reports nothing sent, every address skipped, and one error per skip |
| AttendeeInvitations.VerifyStep | services/attendee/attendee_invitation_service.py:92-102 | only a pending unexpired invitation is returned, unchanged; a non-pending one fails naming its status; a pending expired one fails and is saved as expired |
| AttendeeInvitations.VerifyInvitation | services/attendee/attendee_invitation_service.py:82-102 | an unknown token is not found with nothing changed; otherwise the answer and the saved row are those of the check |
| AttendeeInvitations.AcceptedAlwaysConfirmed | services/attendee/attendee_invitation_service.py:121 | an attendee created from an invitation is confirmed, VIP or not |
| AttendeeInvitations.AcceptCheck | services/attendee/attendee_invitation_service.py:112-117 | acceptance goes ahead exactly when the invitation can be accepted and it bypasses capacity or the event is not full, with the matching message for each refusal |
| AttendeeInvitations.AcceptStep | services/attendee/attendee_invitation_service.py:135-138 | the accepted invitation records the response time and the attendee and is otherwise unchanged |
| AttendeeInvitations.AcceptInvitation | services/attendee/attendee_invitation_service.py:104-146 | a failure writes nothing; an unknown token is not found; on success one confirmed attendee with the invitation's address is appended, the invitation is accepted and linked to it, and one registration notification goes to that address |
| AttendeeInvitations.RejectStep | services/attendee/attendee_invitation_service.py:156-161 | only a pending invitation moves, to rejected with the response time; any other fails naming its status and stays as it was |
| AttendeeInvitations.RejectInvitation | services/attendee/attendee_invitation_service.py:148-161 | an unknown token is not found; otherwise the answer and the saved row are those of the step |
| AttendeeInvitations.PendingOfEvent | services/attendee/attendee_invitation_service.py:172 | the invitation found is a pending one of the event with the id; none is found only when there is none such |
| AttendeeInvitations.CancelInvitation | services/attendee/attendee_invitation_service.py:165-177 | a caller who may not manage is refused; otherwise a missing or non-pending invitation is not found, and a pending one becomes cancelled with nothing else changed |
| AttendeeInvitations.ResendStep | services/attendee/attendee_invitation_service.py:190-193 | only an expired invitation gets a new week; token, status and every other field are kept |
| AttendeeInvitations.ResendInvitation | services/attendee/attendee_invitation_service.py:179-199 | never succeeds: a refusal or a missing pending invitation changes nothing, and a found one is saved with its new expiry before the e-mail step fails |
| AttendeeInvitations.StepsKeepTerminalStates | services/attendee/attendee_invitation_service.py:92-93 | verify and reject leave an invitation that is no longer pending as it was, and cancel and resend do not find it |
| AttendeeInvitations.StatusesPartition | services/attendee/attendee_invitation_service.py:220-226 | an event's invitations split exactly into the five statuses |
| AttendeeInvitations.GetInvitationStats | services/attendee/attendee_invitation_service.py:201-232 | a caller who may not manage is refused; otherwise the counts are the event's invitations in total and by status, their sum is at most the total, and an event with none gives all zeros |
| AttendeeInvitations.InviteOne | services/attendee/attendee_invitation_service.py:38-68 | one pass of the loop over the addresses changes the invitations, the id counter and the three counters exactly as the step `SendOne` describes |
| AttendeeInvitations.Admit | services/attendee/attendee_invitation_service.py:119-143 | once the checks have passed, one confirmed attendee with the invitation's event and address and the given name and phone is added, the invitation becomes accepted and linked to it, and one registration e-mail to that address is stored |
| Attendees.DetermineStatus | services/attendee/attendee_service.py:76-92 | a new attendee is confirmed exactly while fewer confirmed attendees than the capacity exist, and waitlisted from then on |
| Attendees.IsAtCapacity | services/attendee/attendee_service.py:94-107 | an event is at capacity exactly when its confirmed attendees reach its capacity |
| Attendees.AtCapacityIffWaitlisted | services/attendee/attendee_service.py:87-107 | an event is at capacity exactly when a new registration would be waitlisted |
| Attendees.RegistrationRules | services/attendee/attendee_service.py:54-74 | an event that started before now is refused first; otherwise the same e-mail already registered is refused; nothing else is |
| Attendees.RegisterAttendeeForEvent | services/attendee/attendee_service.py:12-52 | an unknown event is not found; a rule that refuses writes nothing; otherwise one attendee with the given name and e-mail and the status capacity decides is appended, an e-mail is never registered twice for one event, and no event becomes overbooked |
| Attendees.AppendKeepsEmailsUnique | services/attendee/attendee_service.py:72-74 | appending an attendee whose e-mail is not yet registered for its event keeps e-mails unique within each event |
| Attendees.AppendKeepsWithinCapacity | services/attendee/attendee_service.py:38-47 | appending an attendee with the status capacity decides keeps every event within its capacity |
| Attendees.ParseStatus | services/attendee/attendee_service.py:176-179 | exactly the four status names are accepted, each as the status it names |
| Attendees.ParseStatusText | services/attendee/attendee_service.py:176 | every attendee status is accepted under its own name |
| Attendees.AttendeeOfEvent | services/attendee/attendee_service.py:170-173 | the attendee found belongs to the event and has the id; none is found only when there is none such |
| Attendees.UpdateAttendeeStatus | services/attendee/attendee_service.py:148-186 | an unknown event, then an attendee outside it, are not found, then an unknown status is refused, writing nothing; otherwise only that attendee's status changes, to the one named |
| Attendees.StatusUpdateCanOverbook | services/attendee/attendee_service.py:175-182 | in an event of capacity one holding its confirmed attendee, confirming a waitlisted one overbooks it |
| Sessions.EventEnd | services/session/session_service.py:179-180 | the event ends at its end time when set, otherwise at its start plus its days and hours |
| Sessions.CreationRules | services/session/session_service.py:162-204 | the first failing check is reported, in order: a start outside the event (ends included), an end after the event, an overlap with an existing session up to the assumed end (an hour when none is given), and 100 sessions already |
| Sessions.BackToBackAllowed | services/session/session_service.py:194-197 | a session ending exactly when the new one starts, or starting exactly when it ends, is no overlap |
| Sessions.AppendKeepsScheduled | services/session/session_service.py:188-200 | a session that passes the overlap check keeps a clash-free timetable clash-free |
| Sessions.SpeakerOfEvent | services/session/session_service.py:36-40 | the speaker found belongs to the event and has the id; none is found only when there is none such |
| Sessions.CreateSession | services/session/session_service.py:12-51 | a failing rule, then a truthy speaker id the event lacks, refuses with nothing written; otherwise one session with the given fields, the event and the speaker is appended, the timetable stays clash-free and the event stays within 100 sessions |
| Sessions.SessionOfEvent | services/session/session_service.py:120-123 | the session found belongs to the event and has the id; none is found only when there is none such |
| Sessions.ApplyPatch | services/session/session_service.py:125-136 | each given field replaces the stored one, the speaker only when one was looked up, and the key, the event and every field not given stay |
| Sessions.UpdateSession | services/session/session_service.py:103-141 | a session outside the event is not found, a truthy speaker id the event lacks is refused, writing nothing; otherwise only that session changes, by the patch |
| Sessions.UpdateCanClash | services/session/session_service.py:134-138 | an update may move a session onto another of the same event, leaving a clash |
| Sessions.DeleteSession | services/session/session_service.py:143-160 | a session outside the event is not found and nothing is deleted; otherwise exactly that row is removed |
| Sessions.RemoveKeepsScheduled | services/session/session_service.py:160 | deleting a session keeps a clash-free timetable clash-free |
| Speakers.CreationRules | services/speaker/speaker_service.py:142-160 | a name already used in the event is refused first, then an event with 50 speakers already; nothing else is |
| Speakers.UpdateRules | services/speaker/speaker_service.py:162-182 | an update is refused exactly when it gives a name held by another speaker of the event |
| Speakers.KeepingOwnNamePasses | services/speaker/speaker_service.py:176-182 | among uniquely named speakers, keeping one's own name is never refused |
| Speakers.CreateSpeaker | services/speaker/speaker_service.py:12-39 | refused exactly when the rules refuse, writing nothing; otherwise one speaker of the event with the given fields is appended, names stay unique per event, keys stay unique, and the event stays within 50 speakers |
| Speakers.AppendKeepsNamesUnique | services/speaker/speaker_service.py:154-156 | appending a speaker whose name the event does not yet use, with a fresh key, keeps names and keys unique |
| Speakers.ApplyPatch | services/speaker/speaker_service.py:113-116 | each given field replaces the stored one; the key, the event and every field not given stay |
| Speakers.UpdateSpeaker | services/speaker/speaker_service.py:88-121 | a speaker outside the event is not found, a name held by another speaker is refused, writing nothing; otherwise only that speaker changes, by the patch, and names stay unique per event |
| Speakers.UpdateKeepsNamesUnique | services/speaker/speaker_service.py:110-118 | an update the rules let through keeps names unique per event |
| Speakers.DeleteSpeaker | services/speaker/speaker_service.py:123-140 | a speaker outside the event is not found and nothing changes; otherwise exactly that row is removed and its sessions are left without a speaker |
| Store.DetachSpeaker | apps/events/models.py:48 | deleting a speaker leaves every other session as it was and clears the speaker of its own sessions |
| EventSerializers.ValidateText | apps/events/serializers/event_serializer.py:33-55 | a value shorter than the field's minimum once stripped is refused with that field's message; otherwise the stripped value is stored, with no surrounding white space (the same rule serves the attendee and speaker names at 117-131 and the session title at 143-146) |
| EventSerializers.ValidateTextIdempotent | apps/events/serializers/event_serializer.py:33-55 | a stored value passes its validator again unchanged |
| EventSerializers.BlankRefused | apps/events/serializers/event_serializer.py:33-55 | a value made only of white space is refused by every text validator |
| EventSerializers.ValidateAttendeeEmail | apps/events/serializers/event_serializer.py:111-115 | an empty e-mail is refused and any other is stored lower-cased |
| EventSerializers.AttendeeEmailIdempotent | apps/events/serializers/event_serializer.py:111-115 | a stored e-mail passes again unchanged |
| EventSerializers.ValidateEventTimes | apps/events/serializers/event_serializer.py:57-84 | the attributes pass unchanged exactly when a start is given, a given end is strictly after it, a missing end comes with a non-zero duration, and no duration is negative; each failure carries its own message, the datetime checks first |
| EventSerializers.NegativeDaysRefusedEvenWithEnd | apps/events/serializers/event_serializer.py:64-80 | an event with a valid end but negative days is still refused for the sign |
| EventSerializers.ValidateSessionTimes | apps/events/serializers/event_serializer.py:148-162 | with both times given, an end not after the start is refused and a missing or zero duration becomes the positive length between them; otherwise the duration is kept |
| EventSerializers.SessionTimesIdempotent | apps/events/serializers/event_serializer.py:148-162 | validating the validated session times again changes nothing |
| Events.CreationRules | backend/services/event/event_service.py:62-106 | the first failing check is reported, in order: a start not after now, a capacity of 0 or less, over 10000, a duration under 30 minutes, over 8760 hours, where a given end measures the duration and otherwise the days and hours do |
| Events.EndOverridesDuration | backend/services/event/event_service.py:92-98 | with an end given the duration fields are ignored: a one-day event stating 400 days passes |
| Events.CandidateInjective | backend/services/event/event_service.py:119-125 | the loop never tries the same slug twice |
| Events.SlugSet | backend/services/event/event_service.py:123 | the set of slugs in use has at most one slug per event, each of them used |
| Events.SlugSetHasAll | backend/services/event/event_service.py:123 | every slug in use is in that set |
| Events.TriedExactly | backend/services/event/event_service.py:119-125 | before its n-th pass the loop has tried exactly the first n candidates |
| Events.TriedSize | backend/services/event/event_service.py:119-125 | it has tried n different slugs before its n-th pass |
| Events.GenerateUniqueSlug | backend/services/event/event_service.py:108-127 | the slug returned is in no event's use, is the first of base, base-1, base-2, ... that is free, and is the base itself when that is free; the loop ends since each rejected slug is a distinct one in use |
| Events.CreateEvent | backend/services/event/event_service.py:10-42 | a failing rule refuses, and a supplied slug already in use fails on the unique column, writing nothing; otherwise one event is appended with the given fields, the user as creator, and the supplied slug or the first free candidate from the slugified name, and slugs stay unique |
| Reminders.SelectedEvents | apps/notifications/management/commands/send_event_reminders.py:44-49 | exactly the published events starting within the window around the target time, both ends included |
| Reminders.Windows | apps/notifications/management/commands/send_event_reminders.py:31-48 | the day reminder covers events starting 23 to 25 hours from now and the hour reminder those starting 45 to 75 minutes from now |
| Reminders.AppendKeepsUnduplicated | apps/notifications/management/commands/send_event_reminders.py:67-78 | a notification added only after the duplicate check passed leaves no two successful reminders of one type, event and address |
| Reminders.ExtendReminders | apps/notifications/management/commands/send_event_reminders.py:94-103 | one more reminder to one of the targets keeps every row added so far a reminder to one of them, and adds one to the count exactly when it came out sent |
| Reminders.RemindAttendees | apps/notifications/management/commands/send_event_reminders.py:64-109 | every confirmed attendee of the event without an earlier successful reminder of the type for it is sent one; earlier notifications stay; every one added is an e-mail reminder of the type for the event to one of its confirmed attendees; no successful reminder is duplicated; the count is of those that came out sent |
| Reminders.ExtendBatch | apps/notifications/management/commands/send_event_reminders.py:54-65 | one event's batch, added after the earlier batches, keeps every added row a reminder for a selected event and adds its sent count to the total |
| Reminders.SendEventReminders | apps/notifications/management/commands/send_event_reminders.py:25-109 | a dry run sends nothing; otherwise every confirmed attendee of every selected event without an earlier successful reminder of the chosen type for it is sent one, earlier notifications stay, every one added is a reminder of the chosen type to a confirmed attendee of a selected event, no successful reminder is duplicated, and the count is of those that came out sent |
| Reminders.RemindOne | apps/notifications/management/commands/send_event_reminders.py:66-106 | an attendee already reminded successfully gets nothing; otherwise exactly one e-mail reminder of the type for the event goes to their address, counted exactly when it ends sent; either way the address ends reminded; no successful reminder is ever duplicated |
| Reminders.RemindEach | apps/notifications/management/commands/send_event_reminders.py:64-109 | every target without an earlier successful reminder of the type for the event is sent one; earlier notifications stay; every one added is a reminder of the type for the event to one of the targets; the count is the number of added rows that ended sent; no successful reminder is duplicated |
| Reminders.RemindForEvents | apps/notifications/management/commands/send_event_reminders.py:54-109 | every confirmed attendee of each of the events without an earlier successful reminder of the type for it is sent one; earlier notifications stay; every one added is a reminder for one of the events to one of its confirmed attendees; the count is the number of added rows that ended sent |
| Reminders.CoveredGrows | apps/notifications/management/commands/send_event_reminders.py:64-109 | notifications appended later never take away an address's reminder for an event |
| Reminders.CoveredByStep | apps/notifications/management/commands/send_event_reminders.py:66-106 | a step that found the address already reminded successfully, or sent it a reminder, leaves it reminded since the command began |
| Reminders.CoverEach | apps/notifications/management/commands/send_event_reminders.py:64-109 | after the step for one more target, every target handled so far is reminded since the command began |
| Reminders.RemindTarget | apps/notifications/management/commands/send_event_reminders.py:64-109 | one pass of the loop over the confirmed attendees keeps earlier rows, the sent count, every added row a reminder to a target, and every target so far reminded |
| Reminders.CoverBatch | apps/notifications/management/commands/send_event_reminders.py:54-109 | after one more event's batch, every confirmed attendee of every event handled so far is reminded since the command began |
| Reminders.CoveredEventsAll | apps/notifications/management/commands/send_event_reminders.py:54-109 | covering the confirmed attendees of all the events in order covers those of each event in the list |
| Reminders.RemindNext | apps/notifications/management/commands/send_event_reminders.py:54-109 | one pass of the loop over the events keeps earlier rows, the sent count, every added row a reminder for one of the events, and every attendee of the events so far reminded |
| PublicEvents.Insert | backend/apps/events/views/public_event_view.py:23 | inserting an element gives the same rows plus that element |
| PublicEvents.InsertSorted | backend/apps/events/views/public_event_view.py:23 | inserting into rows in order keeps them in order |
| PublicEvents.SortBy | backend/apps/events/views/public_event_view.py:23 | ordering keeps exactly the same rows, with their multiplicities |
| PublicEvents.SortBySorted | backend/apps/events/views/public_event_view.py:23 | under a total preorder the ordered rows are in order |
| PublicEvents.FilterSorted | backend/apps/events/views/public_event_view.py:28-34 | filtering rows in order keeps them in order |
| PublicEvents.TextLeTotal | backend/apps/events/views/public_event_view.py:234 | any two names are comparable |
| PublicEvents.TextLeTransitive | backend/apps/events/views/public_event_view.py:234 | name order is transitive |
| PublicEvents.StartOrder | backend/apps/events/views/public_event_view.py:23 | ordering events by start is a total preorder |
| PublicEvents.NameOrder | backend/apps/events/views/public_event_view.py:233-234 | ordering events by name is a total preorder |
| PublicEvents.CapacityOrder | backend/apps/events/views/public_event_view.py:235-236 | ordering events from the largest capacity down is a total preorder |
| PublicEvents.SessionStartOrder | backend/apps/events/views/public_event_view.py:150 | ordering sessions by start is a total preorder |
| PublicEvents.SortedByStart | backend/apps/events/views/public_event_view.py:23 | events ordered by start come in start order |
| PublicEvents.SortedByName | backend/apps/events/views/public_event_view.py:233-234 | events ordered by name come in name order |
| PublicEvents.SortedByCapacity | backend/apps/events/views/public_event_view.py:235-236 | events ordered by capacity come largest first |
| PublicEvents.SessionsSortedByStart | backend/apps/events/views/public_event_view.py:150 | sessions ordered by start come in start order |
| PublicEvents.ReplaceZ | backend/apps/events/views/public_event_view.py:52 | the rewritten text has no Z, and text without a Z is unchanged |
| PublicEvents.DateBound | backend/apps/events/views/public_event_view.py:46-63 | a date bound is set only by a given, non-empty value that reads as a date after the Z rewrite, and any other value sets none |
| PublicEvents.ListMatches | backend/apps/events/views/public_event_view.py:19-77 | exactly the events that are published, public and pass the search, location, date and upcoming filters, in start order |
| PublicEvents.IntParam | backend/apps/events/views/public_event_view.py:80-81 | an absent parameter takes its default, a present one is read as an integer, and one that cannot be read raises |
| PublicEvents.Slice | backend/apps/events/views/public_event_view.py:86 | the slice holds the rows from the start up to the end or the last row, in order |
| PublicEvents.PageOf | backend/apps/events/views/public_event_view.py:82-99 | a negative bound raises; otherwise the page holds the matches from the page's start on, at most a page's worth, all of the rest when they are fewer, none past the end; has-next says matches remain and has-previous that the page is above 1 |
| PublicEvents.ListPublicEvents | backend/apps/events/views/public_event_view.py:16-102 | an unreadable page or page size raises; otherwise the page is cut from the matches with a page size never above 100, the total is the number of matches, and every event shown passes every filter |
| PublicEvents.EveryMatchOnOnePage | backend/apps/events/views/public_event_view.py:80-86 | with pages of a positive size, each match appears on exactly one page, at its position within it |
| PublicEvents.ShowFullIgnored | backend/apps/events/views/public_event_view.py:65-71 | the show_full parameter changes nothing |
| PublicEvents.UnreadableDateIgnored | backend/apps/events/views/public_event_view.py:49-55 | a date_from that does not read as a date is ignored, not refused |
| PublicEvents.UpcomingByDefault | backend/apps/events/views/public_event_view.py:74-77 | unless upcoming_only is given as something other than true, in any case, the upcoming filter is on |
| PublicEvents.UpcomingFilterKeepsFuture | backend/apps/events/views/public_event_view.py:19-23 | every listed event is published and public, and starts after now when the upcoming filter is on |
| PublicEvents.PublicEvent | backend/apps/events/views/public_event_view.py:110-119 | the event found has the id and is published and public; a draft, a private event and a missing one are all not found |
| PublicEvents.DayOf | backend/apps/events/views/public_event_view.py:159 | the day is the text before the first T, or all of it when there is none |
| PublicEvents.GroupStep | backend/apps/events/views/public_event_view.py:156-160 | one pass of the grouping loop keeps the keys those of the items seen and each list their items with that key in order |
| PublicEvents.GroupedMeans | backend/apps/events/views/public_event_view.py:154-160 | the finished grouping has exactly the items' keys, and every item is in its key's list and no other |
| PublicEvents.GroupBy | backend/apps/events/views/public_event_view.py:154-160 | the keys are exactly those of some item, each key's list is its items in their given order, and every item is in exactly one list |
| PublicEvents.EventSchedule | backend/apps/events/views/public_event_view.py:135-175 | an event that is not published and public is not found; otherwise every session of the event is in its day's list and no other, the lists hold only its sessions, and each list is in start order |
| PublicEvents.CapacityBound | backend/apps/events/views/public_event_view.py:214-227 | a capacity bound is set exactly by a given, non-empty value that reads as an integer, to that integer |
| PublicEvents.SearchOrder | backend/apps/events/views/public_event_view.py:229-236 | the same rows, in date, name or largest-capacity order as asked, and in table order for any other value |
| PublicEvents.SearchMatches | backend/apps/events/views/public_event_view.py:186-236 | exactly the upcoming published public events passing the term, type and capacity filters, as many as pass, in the order asked for |
| PublicEvents.Limited | backend/apps/events/views/public_event_view.py:240 | the first limit rows or all of them when fewer; a negative limit raises |
| PublicEvents.SearchEvents | backend/apps/events/views/public_event_view.py:183-251 | an unreadable limit raises; otherwise the result holds the first matches up to the limit, never above 100, with their count and the stripped term |
| PublicEvents.LimitedMatches | backend/apps/events/views/public_event_view.py:238-240 | every kept row passes every filter, and when no more match than the limit all matches are kept |
| PublicEvents.LimitedKeepsOrder | backend/apps/events/views/public_event_view.py:229-240 | the kept rows come in the order asked for |
| EmailPattern.TestIsPattern | frontend/src/app/auth/register/owner/page.tsx:43 | the scan accepts exactly the addresses the regular expression `^[^\s@]+@[^\s@]+\.[^\s@]+$` matches: one `@`, no white space, something before the `@`, and a dot with something on both sides after it |
| EmailPattern.AcceptsAddress | frontend/src/components/InviteTeamMemberModal.tsx:53 | a plain address such as `a@b.c` matches |
| EmailPattern.RejectsSpace | frontend/src/components/InviteTeamMemberModal.tsx:53 | an address holding a space does not match |
| EmailPattern.RejectsSecondAt | frontend/src/components/InviteTeamMemberModal.tsx:53 | an address with two `@` does not match |
| EmailPattern.RejectsNoDot | frontend/src/components/InviteTeamMemberModal.tsx:53 | an address without a dot after its `@` does not match |
| EmailPattern.RejectsEmptyLocalPart | frontend/src/components/InviteTeamMemberModal.tsx:53 | an address with nothing before its `@` does not match |
| Frontend.Utf16Length | frontend/src/app/auth/register/owner/page.tsx:38 | the JavaScript length is at least the number of characters and at most twice it, and equals it when every character is in the basic plane |
| Frontend.OrElse | frontend/src/app/auth/register/owner/page.tsx:72 | the fallback is shown exactly when the message is absent, empty or the fallback itself; any other text shown is the message |
| Url.EncodeURIComponent | frontend/src/app/auth/register/owner/page.tsx:70 | the encoding is never shorter than the text, holds only unreserved characters and `%`, and leaves a text of unreserved characters as it is |
| Url.LinkRoundTrip | frontend/src/app/auth/verify-email/page.tsx:15 | a link `path?name=` followed by the encoded value, read back with `URLSearchParams`, gives the value for that name, whatever characters the value holds |
| Url.Utf8RoundTrip | frontend/src/app/auth/register/owner/page.tsx:70 | UTF-8 decoding gives back the characters that were encoded |
| Url.PercentDecodeEncoded | frontend/src/app/auth/register/owner/page.tsx:70 | percent-decoding what `encodeURIComponent` wrote gives the UTF-8 bytes of the original |
| Url.DecodeEncoded | frontend/src/app/auth/verify-email/page.tsx:15 | reading an encoded value as a form component gives the original text back |
| Url.QueryOfLink | frontend/src/app/auth/verify-email/page.tsx:15 | the query of `path?q` is `q` when the path holds no `?` and `q` no `#` |
| Url.SearchParamOfPair | frontend/src/app/auth/verify-email/page.tsx:15 | a query made of one `name=` pair with an encoded value yields that value for that name |
| VerifyEmail.LinkCarriesEmail | frontend/src/app/auth/register/owner/page.tsx:70 | the verify-email page opened from the registration link shows exactly the address that registered |
| VerifyEmail.VerifyEmailPage.constructor | frontend/src/app/auth/verify-email/page.tsx:15-22 | the page reads the address from the `email` parameter, or the empty text, with an empty code, no request running, no messages and five minutes on the clock |
| VerifyEmail.FormatTime | frontend/src/app/auth/verify-email/page.tsx:31-35 | the clock text always ends in a colon and two digits |
| VerifyEmail.ClockOfParts | frontend/src/app/auth/verify-email/page.tsx:31-35 | minutes and seconds under sixty written as a clock read back as their total |
| VerifyEmail.FormatTimeReadsBack | frontend/src/app/auth/verify-email/page.tsx:31-35 | the clock shown for a number of seconds reads back as exactly that number, so minutes are the quotient by 60 and the two digits the remainder |
| VerifyEmail.SanitizeCode | frontend/src/app/auth/verify-email/page.tsx:140 | the code kept is digits only, at most six, and is the first of the digits typed, as many as there are up to six |
| VerifyEmail.SanitizeIdempotent | frontend/src/app/auth/verify-email/page.tsx:140 | sanitising a sanitised code changes nothing |
| VerifyEmail.TypeOneMore | frontend/src/app/auth/verify-email/page.tsx:140 | typing one character more adds it exactly when it is a digit and fewer than six digits are there |
| VerifyEmail.CanVerifySanitized | frontend/src/app/auth/verify-email/page.tsx:178 | with no request running the verify button is enabled exactly when six digits or more were typed |
| VerifyEmail.ResendLabelMatchesButton | frontend/src/app/auth/verify-email/page.tsx:203-214 | the resend button reads "Resend Code" exactly when it is enabled: no resend running and at most 240 seconds left |
| VerifyEmail.CountdownValue | frontend/src/app/auth/verify-email/page.tsx:24-29 | after n ticks the clock is n lower, and it stops at zero |
| VerifyEmail.ResendAfterOneMinute | frontend/src/app/auth/verify-email/page.tsx:22-203 | from a fresh five-minute clock, resending opens after exactly sixty seconds have passed |
| VerifyEmail.VerifyEmailPage.Tick | frontend/src/app/auth/verify-email/page.tsx:24-29 | each second the clock goes down by one while above zero, and stays at zero |
| VerifyEmail.VerifyEmailPage.ChangeCode | frontend/src/app/auth/verify-email/page.tsx:139-142 | the code becomes the sanitised input and the error is cleared |
| VerifyEmail.VerifyEmailPage.HandleVerify | frontend/src/app/auth/verify-email/page.tsx:37-73 | the address and code are posted; success shows the verified message and schedules the login page; a refusal shows the server's message or "Verification failed"; a thrown error the network message; loading ends in every case |
| VerifyEmail.VerifyEmailPage.HandleResend | frontend/src/app/auth/verify-email/page.tsx:75-105 | the address is posted; success shows the sent message and restarts the clock at 300 seconds; a refusal or a thrown error keeps the clock and shows its message; resending ends in every case |
| VerifyEmail.VerifyEmailPage.SuccessTimeout | frontend/src/app/auth/verify-email/page.tsx:94 | the success message is cleared |
| Register.ValidateAccount | frontend/src/app/auth/register/owner/page.tsx:27-49 | a form is valid exactly when all four fields are filled, the passwords agree, the password has at least 8 UTF-16 units and the address passes the pattern; otherwise exactly the first failing check's message comes back, in the order required, match, length, address |
| Register.ValidAccountEmail | frontend/src/app/auth/register/admin/page.tsx:66-88 | a valid form's address has the shape the regular expression describes |
| Register.SetAccountField | frontend/src/app/auth/register/owner/page.tsx:78-82 | the named field takes the value and the others stay; an unknown name changes no field |
| Register.OwnerRegisterPage.constructor | frontend/src/app/auth/register/owner/page.tsx:17-25 | the page opens with empty fields, no error, nothing loading, nothing sent and no navigation |
| Register.OwnerRegisterPage.HandleInputChange | frontend/src/app/auth/register/owner/page.tsx:78-82 | the field changes and the error is cleared |
| Register.OwnerRegisterPage.HandleSubmit | frontend/src/app/auth/register/owner/page.tsx:51-76 | an invalid form shows its first failure and sends nothing; a valid one sends the name, address and password with an unnamed company organization, then moves to verify-email with the encoded address or shows the thrown message or "Registration failed"; loading ends |
| Register.OptionalFieldsIgnored | frontend/src/app/auth/register/attendee/page.tsx:31-53 | phone, date of birth, city, country and interests never change the outcome of the check |
| Register.SetAttendeeField | frontend/src/app/auth/register/attendee/page.tsx:99-103 | an optional field named takes the value; an account field named changes in the account part only; an unknown name changes nothing |
| Register.AttendeeRegisterPage.constructor | frontend/src/app/auth/register/attendee/page.tsx:19-30 | the page opens with all nine fields empty, no error, nothing loading, nothing sent and no navigation |
| Register.AttendeeRegisterPage.HandleInputChange | frontend/src/app/auth/register/attendee/page.tsx:99-103 | the field changes and the error is cleared |
| Register.AttendeeRegisterPage.HandleSubmit | frontend/src/app/auth/register/attendee/page.tsx:55-97 | an invalid form shows its first failure, with the attendee page's required message, and sends nothing; a valid one posts all eight fields; an ok response moves to verify-email with the encoded address, a refusal shows the server's message or "Registration failed", a thrown error the network message; loading ends |
| Register.AdminRegisterPage.constructor | frontend/src/app/auth/register/admin/page.tsx:18-29 | the page opens validating, with empty fields and token, no invitation, no error and nothing fetched or sent |
| Register.AdminRegisterPage.View | frontend/src/app/auth/register/admin/page.tsx:120-172 | the spinner shows exactly while the invitation is checked, and the form exactly once checking is over and an invitation is held; otherwise the invalid-invitation panel |
| Register.AdminRegisterPage.Mount | frontend/src/app/auth/register/admin/page.tsx:31-64 | without a token the page refuses and fetches nothing; with one it keeps the token and fetches its check; a valid invitation is kept and fills the address in, a refusal or a failure shows its own message and keeps the form; checking ends in every case |
| Register.AdminRegisterPage.HandleInputChange | frontend/src/app/auth/register/admin/page.tsx:114-245 | the field changes and the error is cleared; the e-mail input is disabled while the invitation supplies an address, so that address stays |
| Register.AdminRegisterPage.HandleSubmit | frontend/src/app/auth/register/admin/page.tsx:90-112 | the owner page's check decides; only a valid form is sent, with the invitation token beside the fields, and then the page moves to verify-email or shows the message |
| InviteModal.FormErrors | frontend/src/components/InviteTeamMemberModal.tsx:48-63 | the errors hold an `email` entry exactly for an empty or non-matching address, with the message for which, a `role` entry exactly for an empty role, and nothing else |
| InviteModal.ValidIff | frontend/src/components/InviteTeamMemberModal.tsx:48-63 | the form is valid exactly when the address is filled in and matches the pattern and a role is chosen |
| InviteModal.SetField | frontend/src/components/InviteTeamMemberModal.tsx:87-95 | the named field takes the value and the others stay; an unknown name changes nothing |
| InviteModal.RoleChoiceNeverEmpty | frontend/src/components/InviteTeamMemberModal.tsx:165-178 | choosing either radio button leaves no role error |
| InviteModal.InviteTeamMemberModal.constructor | frontend/src/components/InviteTeamMemberModal.tsx:40-46 | the modal opens with an empty address, the member role, an empty message, no errors and nothing loading |
| InviteModal.InviteTeamMemberModal.Render | frontend/src/components/InviteTeamMemberModal.tsx:97 | nothing is rendered exactly when the modal is not open |
| InviteModal.InviteTeamMemberModal.HandleClose | frontend/src/components/InviteTeamMemberModal.tsx:81-85 | the form returns to its blank state, the errors are cleared and `onClose` is called once |
| InviteModal.InviteTeamMemberModal.HandleSubmit | frontend/src/components/InviteTeamMemberModal.tsx:65-79 | an invalid form shows its errors and calls nothing; a valid one goes to `onInvite`; when that resolves the form is reset and `onClose` called, when it rejects the form is kept; loading ends |
| InviteModal.InviteTeamMemberModal.HandleInputChange | frontend/src/components/InviteTeamMemberModal.tsx:87-95 | the field changes; that field's error, when there is one, is blanked, and every other error stays |
| AcceptanceForm.InvitationAcceptanceForm.constructor | frontend/components/invitations/InvitationAcceptanceForm.tsx:25-37 | the form opens loading, with no invitation, empty fields, no error and no success |
| AcceptanceForm.InvitationAcceptanceForm.View | frontend/components/invitations/InvitationAcceptanceForm.tsx:101-161 | loading wins, then a non-empty error, then success, then an invitation that cannot be accepted or none, and only then the form, each shown exactly in its case |
| AcceptanceForm.InvitationAcceptanceForm.Mount | frontend/components/invitations/InvitationAcceptanceForm.tsx:40-67 | without a token the error says so and nothing is fetched; with one the verification is fetched; its details are kept, or a refusal or thrown error sets the error; loading ends in every case |
| AcceptanceForm.InvitationAcceptanceForm.ChangeFullName | frontend/components/invitations/InvitationAcceptanceForm.tsx:183 | only the name changes |
| AcceptanceForm.InvitationAcceptanceForm.ChangePhone | frontend/components/invitations/InvitationAcceptanceForm.tsx:196 | only the phone changes |
| AcceptanceForm.InvitationAcceptanceForm.HandleSubmit | frontend/components/invitations/InvitationAcceptanceForm.tsx:70-98 | the token and details are posted; an ok response is a success, a refusal shows the server's message or "Failed to accept invitation", a thrown error its own message; submitting ends; after a refusal the error panel replaces the form |
| PendingInvitations.RemainingIsNotFixed | frontend/src/components/PendingInvitations.tsx:36-37 | a count label is never "Expired" or "Expires soon" |
| PendingInvitations.FormatTimeRemaining | frontend/src/components/PendingInvitations.tsx:26-39 | "Expired" exactly when no time is left; "Expires soon" exactly under an hour or for a date that does not read; otherwise the whole days left when at least one, else the whole hours |
| PendingInvitations.PendingInvitationsList.constructor | frontend/src/components/PendingInvitations.tsx:23-24 | no dialog and no menu open, and no callback called |
| PendingInvitations.PendingInvitationsList.View | frontend/src/components/PendingInvitations.tsx:45-100 | the empty state exactly for no invitations; otherwise the count and one row per invitation in order, with its address, inviter name or else inviter address, time left, and menu open exactly on the open id |
| PendingInvitations.PendingInvitationsList.ToggleMenu | frontend/src/components/PendingInvitations.tsx:123-124 | the open row's menu button closes it; any other opens that row's menu in place of any other |
| PendingInvitations.PendingInvitationsList.Resend | frontend/src/components/PendingInvitations.tsx:131-137 | the id goes to the resend callback and the menu closes |
| PendingInvitations.PendingInvitationsList.AskCancel | frontend/src/components/PendingInvitations.tsx:145-147 | the id is chosen for the dialog, the menu closes, and nothing is cancelled |
| PendingInvitations.PendingInvitationsList.ConfirmCancel | frontend/src/components/PendingInvitations.tsx:169-173 | with the dialog open the chosen id goes to the cancel callback and the dialog closes; otherwise nothing happens |
| PendingInvitations.PendingInvitationsList.DismissDialog | frontend/src/components/PendingInvitations.tsx:167 | the dialog closes and nothing is cancelled |
| PendingInvitations.PendingInvitationsList.ClickOutside | frontend/src/components/PendingInvitations.tsx:183-186 | the backdrop closes the menu |
| PendingInvitations.PendingInvitationsList.CopyLink | frontend/src/components/PendingInvitations.tsx:111 | the row's token goes to the copy callback |
| EventCard.RegisterLabel | frontend/src/components/EventCard.tsx:75-76 | "Fully Booked" exactly when full, else "Registration Closed" exactly when not upcoming, else "Register" |
| EventCard.Actions | frontend/src/components/EventCard.tsx:15-76 | an administrator gets edit and delete, both for the event's id, and no register button; anyone else gets the register button for the id, disabled exactly when the event is not upcoming or fully booked |
| EventCard.LabelMatchesButton | frontend/src/components/EventCard.tsx:71-76 | the button reads "Register" exactly when it can be clicked, and a disabled one says why |
| EventCard.RegistrationOnlyCloses | frontend/src/components/EventCard.tsx:17-72 | one more registration never re-enables a disabled button |
| Text.StripIdempotent | apps/events/serializers/event_serializer.py:33-55 | stripping a stripped value changes nothing |
| Text.LowerIdempotent | apps/events/serializers/attendee_invitation_serializer.py:31-40 | lower-casing leaves no upper-case letter and changes nothing a second time |
| Text.ParseIntOfString | backend/apps/events/views/public_event_view.py:80-81 | a number written in decimal reads back as that number |

## Left out

- Attendee invitations' `is_expired(now)` and `can_accept()`, and `Event.is_full`: their definitions are not part of this model. They are passed in as the `Oracle` parameter and left uninterpreted.
- `TokenUtil.is_expired`: its source is not part of this model. It is passed to the authentication methods as a predicate on the stored expiry.
- `TokenUtil.decode_user_token`: its source is not part of this model. It is passed to `PerformResetPassword` as a total function from token to e-mail, so a token that fails to decode is not modelled.
- The notification records' `recipient_user` and `metadata` columns are not modelled: the rules read only the type, channel, address, event and status.
- `Attendee.objects.create(..., **attendee_data_clean)` against the models file's `Attendee`, which has no `phone` column, would raise a `TypeError`. The model follows the services, which use a `phone` field, so that error is not modelled.
- `slugify`: it is passed in as a function parameter.
- `set_password` and `check_password`: a password is stored as given and compared by equality. Hashing is not modelled.
- `uuid.uuid4` tokens and database keys: both are drawn from the database's counter, which makes them fresh and unique. Their format is not modelled. New verification codes and reset tokens are parameters.
- Mail sending, Django template rendering and the mail backend's failures: they are the `Delivery` parameter and boolean outcomes. The text of the rendered e-mails is not modelled.
- The clock is the `now` parameter, in seconds (milliseconds on the front end). Time zones and date formatting are not modelled.
- Floating point: `duration_hours` is modelled as whole seconds. `GetInvitationStats` leaves out `response_rate` and its rounding.
- `str.lower()` and `toLowerCase` are modelled on ASCII letters only. Other case mappings and Unicode normalisation are not modelled.
- Transactions: an atomic block is modelled as checks before writes. Concurrency, locking and rollback of partial database writes are not modelled.
- Cascades: the only cascade modelled is from a deleted organization invitation to its notifications. The ORM's other cascades are not modelled, because the modelled operations delete nothing else.
- Read-only queries that only serialize rows are not modelled because they state no rule:
  - `get_event_sessions`, `get_event_session_by_id`, `get_event_speakers` and `get_event_speaker_details`;
  - `get_event_attendees` and `get_event_invitations`;
  - `get_event_list_for_each_organization`, `get_event_details_by_id` and `get_organization_invitations`.
- `generate_auth_tokens` and `extract_registration_data`: JWT issuing and request parsing are not modelled.
- Views, URL configuration and response wrappers are not modelled. The exception is the public event view, whose pagination, filters, schedule grouping and search are modelled.
- React rendering, markup, styling, routing and `console` output are not modelled. Each page's render choice is a view datatype, and each awaited request is an outcome parameter. Timers are modelled as explicit `Tick` and `SuccessTimeout` calls.
- The browser's `maxLength={6}` on the code input: the model relies on the `onChange` truncation alone.
- `PendingInvitations`: the per-row expired badge and its styling are not modelled.
- `AuthService.registerOwner`, `registerAdmin` and the other front-end service clients are fetch and storage wrappers. Each is modelled as the request it records and an outcome parameter.
- `test_invitations.py` and `test_registration_flows.py` are not modelled. The first is a demo script. The second expects behaviour that the attendee service does not implement.
