# Pulse campus events: attendance and points engine in Dafny

This project models the attendance and points engine of Pulse, a campus events site, and proves properties of that model. The engine has these parts:

- Events carry up to four attendance scans: morning in, morning out, afternoon in and afternoon out. Each scan can be switched on, and each has an optional time window.
- Organizers scan a user's QR code to record one of those scans.
- Every recorded scan is worth an equal integer share of the event's points. That share is credited to the user's profile, and each credit is written to a points transaction log.
- Registered users of mandatory events may ask to be excused from a scan or from every scan.
- An organizer who approves an excuse books the missing attendance records and credits the same share.
- A summary counts, per user, how many of the possible scans of mandatory events were completed, either by a scan or by an approved excuse.
- Around the engine sit:
  - the role-based access checks of the views;
  - the event form's cross-field validation;
  - the excuse form's choice list;
  - the leaderboard's tie-aware ranking;
  - the template filters that show names and initials.

## Modules

- `common.dfy` (`Common`) holds the shared pieces. Instants are whole seconds, dates are day numbers and a time of day is a second within the day. It also has Python's `strip`, `upper` and `split` on ASCII strings, decimal rendering, and the 12-hour clock format `%I:%M %p` together with its parser.
- `models.dfy` (`Models`) holds:
  - the scan types and their codes;
  - the user profile with `add_points` and its transaction log;
  - organization invites;
  - the `Event` class, with its save defaults, its time predicates and its per-scan windows;
  - registrations, QR codes and the attendance ledger, with its unique (event, user, type) constraint;
  - the next-scan choice;
  - excuses;
  - the automatic registration of an organization's members.
- `qr_views.dfy` (`QrViews`) holds the scanner page and the scan endpoint:
  - which events and which scan types the scanner page offers;
  - every refusal of the scan endpoint, in the order the code checks them;
  - the state changes of an accepted scan: the record, the credit, the QR code's last-use stamp and the time-in registration status.
- `views.dfy` (`Views`) holds:
  - event and announcement visibility;
  - leaderboard ranks;
  - the mandatory-attendance summary;
  - excuse requests;
  - excuse review, with the bookings and credits of an approval.
- `forms.dfy` (`Forms`) holds `EventForm.clean` and the choice list of `ExcuseForm`.
- `mixins.dfy` (`Mixins`) holds `RoleRequiredMixin.dispatch`, the policies its subclasses fix, and the role helpers.
- `auth_helpers.dfy` (`AuthHelpers`) holds the template filters `equals`, `get_item`, `first_char`, `get_initials` and `get_display_name`.

Objects the code updates in place are classes whose methods name what they modify. These are profiles, invites, events, registrations, QR codes, the attendance ledger, excuses and the event form's cleaned data. Everything else is datatypes and functions. Query results are sequences in the order the query returns them. The database rows a view reads are parameters.

### Where the code and its documentation differ

- **The "all types" marker.** Excuses that apply to every scan are stored with the code `"ALL"`. Three places compare the stored type with `Excuse.AttendanceType.ALL[0]`, which is the single character `"A"`, not `"ALL"`:
  - `applies_to_attendance_type`;
  - the "all" case of `get_attendance_type_label`;
  - the scope of an approval in the review view.

  The model follows the code (`Models.AllMarker`). As a result, an "ALL" excuse:
  - is not reported by the summary for any single type;
  - shows its label through the choice display;
  - on approval books one record of type `"ALL"` instead of one per enabled type.

  The comments describe a wildcard. Those readings appear as separate members: `Models.Excuse.AppliesToIntended` and `Views.ApprovalScopeIntended`. `Models.AllScopeIsNotAWildcard` and `Views.AllApprovalBooksOneRecord` state the difference.
- **The type-label comparisons.** `get_attendance_type_label` compares the stored type with the first character of each choice value and returns the second character. Its comment promises the display label instead.
  - For the five choice values no comparison fires, and the label is the choice display (`Models.ExcuseLabelIsChoiceLabel`).
  - The field is a plain character field, so it can also hold `"M"` or `"A"`. Those do match: `"M"` is labelled `"O"` (from `MORNING_IN`), and `"A"` is labelled `"F"` (from `AFTERNOON_IN`, which is tested before `ALL`). `Models.ExcuseLabelFirstCharacters` states this.
- **Registration status for excuse requests.** An excuse request is accepted for a registration of any status, including a cancelled one, because the view only checks that one exists.
- **Re-reviewing an approved excuse.** The review view's queryset holds only pending excuses. A second review of an approved excuse therefore finds nothing, and it cannot book or credit twice.
- **Who passes the "users and above" views.** `UserOrAboveMixin` lists `USER` and `ADMIN` but not `ORGANIZER`. A profile with the organizer role is turned away there unless it belongs to a superuser.

## Model

| member | source | states |
|---|---|---|
| Common.Combine | projectsite/pulse/models.py:320-343 | combining a date with a time of day gives an instant on that date at that time, inside the date's day |
| Common.Strip | projectsite/pulse/qr_views.py:485-486 | `strip` removes exactly the leading and trailing whitespace: the result is a contiguous slice of the input with no whitespace at either end, and only whitespace was cut |
| Common.Upper | projectsite/pulse/qr_views.py:541-560 | `upper` keeps the length and upper-cases each letter, leaving every other character alone |
| Common.SplitJoin | projectsite/pulse/qr_views.py:333 | splitting on the separator undoes the join of two parts, provided neither part contains the separator |
| Common.IntToStringInjective | projectsite/pulse/templatetags/auth_helpers.py:153 | distinct integers have distinct decimal strings, so `str` keys of integers never collide |
| Common.Format12Parse12 | projectsite/pulse/qr_views.py:336-338 | parsing a time formatted as `%I:%M %p` gives that time back, truncated to the minute |
| Models.Rank | projectsite/pulse/models.py:873-877 | each scan type has a position in the fixed order morning in, morning out, afternoon in, afternoon out |
| Models.Code | projectsite/pulse/models.py:873-877 | the stored code of a scan type is a non-empty string of capitals and underscores |
| Models.FromCode | projectsite/pulse/models.py:873-877 | reading a code gives the one type whose code it is, and nothing for any other string |
| Models.UserProfile.AddPoints | projectsite/pulse/models.py:72-86 | a zero amount changes nothing; any other amount moves the total by the amount and appends one transaction carrying the new balance; a profile whose log sums to its total and chains stays so |
| Models.ConsistentTotal | projectsite/pulse/models.py:72-86 | a consistent profile's total equals the sum of its transaction amounts |
| Models.ChainedTelescopes | projectsite/pulse/models.py:786-792 | in a chained log, the last balance equals the balance before the first transaction plus the sum of all amounts |
| Models.OrganizationInvite.Use | projectsite/pulse/models.py:259-262 | using an invite counts one more use and never makes an invalid invite valid again |
| Models.InviteRejections | projectsite/pulse/models.py:249-257 | an invite is invalid when inactive, past its expiry, or out of uses under a positive limit; an active invite with no expiry and no positive limit is valid |
| Models.InviteValidityMonotone | projectsite/pulse/models.py:249-257 | an invite valid at a later time was valid at every earlier time |
| Models.PointsPerScan | projectsite/pulse/qr_views.py:672-686 | the per-scan share is the floor of points over enabled scans: all shares together never exceed the points, one more point per scan would, and no scans give a share of 0 |
| Models.Event.EnabledTypes | projectsite/pulse/models.py:557-560 | the enabled types, each once, in the fixed order, counting exactly the enabled scans |
| Models.Event.Save | projectsite/pulse/models.py:320-343 | a dated event without start or end datetime gets midnight and 23:59:59 of its date filled in; datetimes already set, or any event without a date, are left as they are |
| Models.IsPastMonotone | projectsite/pulse/models.py:345-368 | once an event is past it stays past |
| Models.OngoingBetweenDatetimes | projectsite/pulse/models.py:370-401 | an ongoing event is not past; with both datetimes set, ongoing means between them |
| Models.SavedDayEvent | projectsite/pulse/models.py:345-401 | for an event saved with only a date, past means a later day and ongoing means that very day |
| Models.DayBounds | projectsite/pulse/models.py:345-401 | an instant is after the last second of a day exactly when its date is later, and within that day exactly when its date is that day |
| Models.DefaultWindowIsEventDay | projectsite/pulse/models.py:486-539 | without explicit window bounds the attendance window is the whole event day |
| Models.CanScanAttendanceCases | projectsite/pulse/models.py:541-555 | scanning is refused with no scan enabled, allowed while ongoing, and otherwise allowed exactly inside the attendance window or when the window is open-ended |
| Models.CanScanCases | projectsite/pulse/models.py:562-692 | a scan type is scannable only when enabled and the event is ongoing, then exactly inside its start and end, inside one hour after its start when it has no end, or at any time without a start |
| Models.CanScanImpliesCanScanAttendance | projectsite/pulse/models.py:541-692 | a scannable type is enabled, the event is ongoing, and the event as a whole is scannable |
| Models.AwardsWithinPoints | projectsite/pulse/models.py:445-447 | crediting every enabled scan its share never exceeds the event's points, and some scan is enabled exactly when the enabled count is positive |
| Models.Registration.MarkAttended | projectsite/pulse/models.py:777-784 | the registration becomes attended and stamped now; a non-zero award goes to the profile through `add_points`, a zero award leaves it alone |
| Models.AttendanceLedger.Recorded | projectsite/pulse/models.py:941-959 | a type is recorded for a user at an event exactly when its `has_*` query finds a record |
| Models.RecordedAfterInsert | projectsite/pulse/models.py:941-959 | storing a record adds its type to the recorded types of its own event and user and changes no other pair's; a record stored under a non-type code such as "ALL" adds no type |
| Models.AttendanceLedger.Create | projectsite/pulse/models.py:895-900 | a record is stored exactly when its (event, user, type) key is new, and nothing else changes; a duplicate is refused |
| Models.GetAttendanceType | projectsite/pulse/models.py:962-983 | the next scan is an eligible, unrecorded type with no eligible type before it in the fixed order; nothing is returned only when no type is eligible |
| Models.IsFullyAttended | projectsite/pulse/models.py:986-997 | fully attended means every enabled type is recorded |
| Models.FullyAttendedHasNoNextScan | projectsite/pulse/models.py:962-997 | a fully attended user has no next scan, and an event with nothing enabled counts as fully attended |
| Models.NextScanAdvances | projectsite/pulse/models.py:962-983 | recording the next scan moves the following choice strictly forward in the fixed order |
| Models.Excuse.constructor | projectsite/pulse/models.py:1014-1024 | a new excuse is pending and unreviewed, with no notes |
| Models.AllScopeIsNotAWildcard | projectsite/pulse/models.py:1045-1049 | an excuse stored as "ALL" applies to no single type, although the intended wildcard would apply it to every type; the stored type matches exactly when it equals the marker or the type's code |
| Models.ExcuseLabelIsChoiceLabel | projectsite/pulse/models.py:1051-1068 | for each of the five choice values, the label shown for an excuse is the display label of that choice, and for a scan type's code it is that type's label |
| Models.ExcuseLabelFirstCharacters | projectsite/pulse/models.py:1051-1068 | a stored "M" is labelled "O" and a stored "A" is labelled "F", the second characters of MORNING_IN and AFTERNOON_IN; every other value gets the choice label, else the value itself |
| Models.AutoRegisterOrganizationMembers | projectsite/pulse/models.py:453-484 | only a mandatory organization event registers members; a set deadline or a missing start raises the comparison error, and a start already passed does nothing; otherwise every member gets a registration, new ones and revived cancelled ones as mandatory pre-registrations, while other rows keep their status |
| Models.RegisterMembers | projectsite/pulse/models.py:466-482 | the registration loop adds a fresh mandatory pre-registration for each member without one, revives a member's cancelled registration, and leaves every other registration as it was |
| QrViews.GetEndTimeFromWindow | projectsite/pulse/qr_views.py:327-348 | the end time parsed from a window string, when there is one, falls on the event's date |
| QrViews.WindowEndRoundTrip | projectsite/pulse/qr_views.py:327-348 | for a window rendered from two times, the parsed end is the event date at the second time, to the minute |
| QrViews.NoTimeWindowHasNoEnd | projectsite/pulse/qr_views.py:327-348 | the placeholder window text without times yields no end time |
| QrViews.EntryEndTimeResolved | projectsite/pulse/qr_views.py:303-325 | an offered type's end time is its end field on the scan date; failing that, it is parsed from its window on the event date; with neither it is absent |
| QrViews.AvailableTypes | projectsite/pulse/qr_views.py:350-405 | the page's append loop builds exactly the list of open types with their entries |
| QrViews.AvailableOnlyOpen | projectsite/pulse/qr_views.py:350-405 | every offered type can currently be scanned |
| QrViews.AvailableHasEveryOpen | projectsite/pulse/qr_views.py:350-405 | every type that can currently be scanned is offered |
| QrViews.AvailableInOrder | projectsite/pulse/qr_views.py:350-405 | offered types appear once each, in the fixed order |
| QrViews.AvailableEntries | projectsite/pulse/qr_views.py:350-405 | each offered entry carries that type's code, label, window and end time |
| QrViews.ScannerEvents | projectsite/pulse/qr_views.py:240-282 | the page lists ongoing events with a scan enabled: all of them for an admin, those of the organizer's organizations otherwise, and none for anyone else |
| QrViews.ExactQr | projectsite/pulse/qr_views.py:496-497 | the exact lookup finds an active code with that token, and finds nothing only when there is none |
| QrViews.FallbackQr | projectsite/pulse/qr_views.py:501-506 | a fallback match is an active code whose token equals the token or its stripped form |
| QrViews.FallbackQrMeaning | projectsite/pulse/qr_views.py:501-506 | the fallback returns the first active code whose token matches, provided it lies among the first hundred active codes; it returns nothing exactly when none of those hundred matches |
| QrViews.QrLookup | projectsite/pulse/qr_views.py:494-515 | the code found is active and matches the token; when an active code has exactly this token, one is found |
| QrViews.ExactQrFirst | projectsite/pulse/qr_views.py:496-497 | the exact lookup returns the first active code with exactly this token |
| QrViews.QrLookupMeaning | projectsite/pulse/qr_views.py:494-515 | an exact match wins over a match after stripping and is the first one; without an exact match the result is the fallback's first match among the first hundred active codes, or nothing when none of them matches |
| QrViews.FindQrCode | projectsite/pulse/qr_views.py:494-515 | the lookup with its fallback loop finds the code the lookup function describes |
| QrViews.FallbackSearch | projectsite/pulse/qr_views.py:501-506 | the fallback loop computes the fallback function, so by its meaning lemma it stops at the first matching code among the first hundred active ones |
| QrViews.ParseScanType | projectsite/pulse/qr_views.py:541-560 | a type is read exactly when the stripped, upper-cased text is a type's code, and that code is then the text |
| QrViews.TypeCheck | projectsite/pulse/qr_views.py:541-668 | an accepted type is enabled, open for scanning and not yet recorded for the user |
| QrViews.ScanDecision | projectsite/pulse/qr_views.py:430-668 | the decision ties an accepted scan, or the code a refusal matched, to a code that exists |
| QrViews.TokenDecision | projectsite/pulse/qr_views.py:473-668 | after authorization, the decision refers only to codes that exist |
| QrViews.UserDecision | projectsite/pulse/qr_views.py:519-668 | once a code is found, an acceptance is for that code and a refusal names it as matched |
| QrViews.SuccessLabelIsCode | projectsite/pulse/qr_views.py:731-745 | the success label lookup, keyed by first characters, hands back the code itself |
| QrViews.Admit | projectsite/pulse/qr_views.py:430-668 | the guards decide as the decision function says; the matched code loses its organization and no other code changes; an accepted key is not yet in the ledger |
| QrViews.CreditPoints | projectsite/pulse/qr_views.py:705-712 | the user's profile, created when missing, gains the share with one logged transaction; no other profile changes |
| QrViews.MarkTimeIn | projectsite/pulse/qr_views.py:718-728 | a time-in scan marks the user's registration attended; other registrations, and time-out scans, change nothing |
| QrViews.StoreAttendance | projectsite/pulse/qr_views.py:672-702 | an accepted scan stores exactly one record, by the organizer, worth the event's per-scan share |
| QrViews.ScanQrCode | projectsite/pulse/qr_views.py:430-769 | the response and every state change follow the decision: a refusal stores nothing and credits no one; an acceptance stores one record, stamps the code, credits a positive share once and marks time-ins attended |
| QrViews.ScanQrCodeForId | projectsite/pulse/qr_views.py:430-769 | an unknown event id is answered with the 500 response and changes nothing; a known event gets the scan's decision, response and records |
| QrViews.Complete | projectsite/pulse/qr_views.py:672-728 | the accepting branch stores the record, stamps the code's last use, credits a positive share and updates the registration, and nothing else |
| QrViews.AcceptedPassedEveryGuard | projectsite/pulse/qr_views.py:430-668 | an accepted scan passed the permission, window, token, registration, type and duplicate checks |
| QrViews.TypeCheckAccepts | projectsite/pulse/qr_views.py:541-668 | each refusal of the type stage is caused by its own condition |
| QrViews.AcceptedWhenTypeOpen | projectsite/pulse/qr_views.py:430-668 | an authorized scan of a known code for an open, unrecorded type is accepted |
| QrViews.TypeCheckSucceeds | projectsite/pulse/qr_views.py:541-668 | an open, unrecorded type named in any spacing or case passes the type stage |
| QrViews.CodeIsNormal | projectsite/pulse/qr_views.py:541-560 | a type's code is already stripped and upper-case |
| QrViews.NextScanIsAccepted | projectsite/pulse/qr_views.py:541-668 | once the other guards pass, an organizer who selects the type `get_attendance_type` names as the user's next scan is accepted for it |
| QrViews.BadTypeIsRefused | projectsite/pulse/qr_views.py:541-627 | an unknown type name, or a known type that cannot be scanned now, is refused |
| QrViews.RegistrationBlocks | projectsite/pulse/qr_views.py:526-539 | a cancelled registration, or no registration for an event that is not mandatory, refuses the scan |
| QrViews.SecondScanIsDuplicate | projectsite/pulse/qr_views.py:651-668 | after an accepted scan is recorded, the same scan is refused as a duplicate |
| QrViews.PermissionGuards | projectsite/pulse/qr_views.py:442-462 | superusers always pass; a visitor with neither a profile nor a membership is refused; anyone else who passes holds admin or organizer rights, and for an organization event organizes it or is an admin |
| Views.EventVisibility | projectsite/pulse/views.py:41-60 | superusers see every event; an event without an organization is visible exactly when it is public or the viewer's profile is an admin; an organization event exactly to members of that organization and admins |
| Views.AnnouncementAtLeastEvent | projectsite/pulse/views.py:63-80 | whoever may see an event may see its announcements, general announcements are visible to all, and organization announcements follow event visibility |
| Views.ComputeRanks | projectsite/pulse/views.py:799-810 | the ranking loop gives each profile the rank function's value |
| Views.RankMapAt | projectsite/pulse/views.py:799-810 | with distinct profiles, each profile's entry is its own position's rank |
| Views.RankMapKeys | projectsite/pulse/views.py:799-810 | the rank map has exactly the listed profiles as keys |
| Views.RankBounds | projectsite/pulse/views.py:799-810 | a rank lies between 1 and the position plus one |
| Views.RankSteps | projectsite/pulse/views.py:804-809 | a tie keeps the previous rank, and a change of points jumps to the position plus one |
| Views.RanksNondecreasing | projectsite/pulse/views.py:799-810 | ranks never decrease down the list |
| Views.CountAboveAll | projectsite/pulse/views.py:799-810 | a prefix of profiles all above a score counts in full |
| Views.CompetitionRanking | projectsite/pulse/views.py:799-810 | on a list sorted by points, a profile's rank is one more than the number of profiles with more points |
| Views.ExcuseStatusMeaning | projectsite/pulse/views.py:1697-1705 | the status reported for a type is that of some applicable approved or pending excuse; none is reported only when every applicable excuse was rejected |
| Views.GetExcuseStatus | projectsite/pulse/views.py:1697-1705 | the search loop returns the status of the first applicable unrejected excuse |
| Views.EnabledInScanOrder | projectsite/pulse/views.py:1672-1678 | counting enabled flags over the four types gives the event's enabled count |
| Views.CompletedWithinEnabled | projectsite/pulse/views.py:1714-1733 | a type counts as completed only if it is enabled |
| Views.CompletedAtMostPossible | projectsite/pulse/views.py:1714-1733 | an event's completed scans never exceed its possible scans |
| Views.EventCompleted | projectsite/pulse/views.py:1707-1733 | an event's completed count is the number of enabled types scanned or covered by an approved excuse |
| Views.CompletedInScanOrder | projectsite/pulse/views.py:1714-1733 | the four-case count equals the sum over the types of the enabled-and-completed indicator |
| Views.TotalsBound | projectsite/pulse/views.py:1667-1735 | over any set of events, completed scans never exceed possible scans |
| Views.SummaryTotals | projectsite/pulse/views.py:1667-1735 | the totals are the sums of possible and of completed scans over the mandatory events, and the completed total stays within the possible one |
| Views.RequestExcuse | projectsite/pulse/views.py:1871-1911 | a request is refused for an optional event, without a registration, or with an open excuse for the same type, leaving the table as it was; otherwise exactly one new pending excuse with the given fields is added |
| Views.RequestRefusalCases | projectsite/pulse/views.py:1871-1911 | each refusal happens exactly when its condition is the first to hold, and a request is accepted exactly when none holds |
| Views.RepeatRequestRefused | projectsite/pulse/views.py:1888-1900 | once a request is stored, the same request is refused as already excused |
| Views.EnabledCodes | projectsite/pulse/views.py:1994-2002 | the approval scope of an all-types excuse lists each enabled type once |
| Views.AllApprovalBooksOneRecord | projectsite/pulse/views.py:1993-2005 | an approved "ALL" excuse books the single type "ALL", where the intended scope is every enabled type; for any other stored type both scopes are that type |
| Views.ApprovalNote | projectsite/pulse/views.py:2043 | the note of a booked record is the approval prefix followed by the reason's first hundred characters, or the whole reason when it is shorter |
| Views.ApprovalKeepsRecords | projectsite/pulse/views.py:2026-2053 | approval bookings add records and never change an existing one |
| Views.CreatedAreNew | projectsite/pulse/views.py:2026-2053 | the created types are distinct scope types that lacked a record and have one afterwards, at most one per scope entry |
| Views.ApprovalIdempotent | projectsite/pulse/views.py:2026-2053 | booking the same scope again creates nothing and leaves the ledger as it is |
| Views.AlreadyRecordedUnchanged | projectsite/pulse/views.py:2026-2053 | when the scope is fully recorded, an approval books and creates nothing |
| Views.ExcuseLogRows | projectsite/pulse/views.py:2040-2051 | the log of an approval has one transaction per created type, each for the share with the running balance |
| Views.ExcuseLogSum | projectsite/pulse/views.py:2040-2051 | the approval's transactions sum to the share times the number of created records |
| Views.ExcuseLogChained | projectsite/pulse/views.py:2040-2051 | each approval transaction's balance is the previous balance plus its amount |
| Views.BookApproval | projectsite/pulse/views.py:2026-2053 | the booking loop stores the missing records of the scope, and for a positive share credits the profile once per created record, logging each credit |
| Views.BookKind | projectsite/pulse/views.py:2029-2051 | one scope type is booked exactly when the user has no record of it; a booking with a positive share appends one credit row whose balance is the old balance plus the share; a zero share leaves the profile untouched |
| Views.ScopeOf | projectsite/pulse/views.py:1991-2005 | the scope list built by appends is the scope the approval books |
| Views.ShareOf | projectsite/pulse/views.py:2007-2024 | the approval's share is the same per-scan share a QR scan awards |
| Views.StampReview | projectsite/pulse/views.py:1980-1983 | a review stores the reviewer, the review time, the chosen status and the notes |
| Views.Approve | projectsite/pulse/views.py:1986-2053 | an approval books exactly the scope's missing records with the per-scan share, reports the created types, and credits the profile once per created record when the share is positive |
| Views.ReviewExcuse | projectsite/pulse/views.py:1952-2062 | an excuse outside the reviewer's queryset is not found and nothing changes; otherwise it is stamped with the reviewer, the time, the status and the notes, and a first approval books and credits as the booking loop says |
| Views.ApprovedNotReviewable | projectsite/pulse/views.py:1952-1965 | an approved excuse falls outside every reviewer's queryset, so it cannot be approved, booked or credited twice |
| Forms.EventFormData.Clean | projectsite/pulse/forms.py:263-317 | a missing date is refused before anything is written; a dated form gets both datetimes written, then is refused for times out of order or a deadline on or after the date |
| Forms.CleanErrorCases | projectsite/pulse/forms.py:263-317 | each refusal happens exactly when its condition is the first to hold |
| Forms.CleanedSpan | projectsite/pulse/forms.py:281-315 | an accepted form yields a span on the event's day from the given start, or midnight, to the given end, or 23:59:59; the start is not after the end, and is strictly before it when both times are given; the deadline falls before the date |
| Forms.CleanDefaultsAgreeWithSave | projectsite/pulse/forms.py:281-302 | with no times, the form's datetimes are those `Event.save` fills in, the whole day |
| Forms.ExcuseChoices | projectsite/pulse/forms.py:578-595 | with an event the choice list is built by appends as blank, the enabled types and then "all"; without one the model's own choices stay |
| Forms.EventChoicesShape | projectsite/pulse/forms.py:583-595 | the list has two more entries than enabled types, starts with the blank and ends with "all", with the enabled types between in the fixed order |
| Forms.EventChoicesOffered | projectsite/pulse/forms.py:583-595 | a type is offered exactly when the event enables it, and the blank and "all" entries are always offered |
| Forms.OfferedIfEnabled | projectsite/pulse/forms.py:583-595 | an enabled type is offered |
| Forms.EnabledIfOffered | projectsite/pulse/forms.py:583-595 | an offered type is enabled |
| Mixins.UnauthenticatedDenied | projectsite/pulse/mixins.py:17-21 | an anonymous visitor is always turned away |
| Mixins.SuperuserRequirement | projectsite/pulse/mixins.py:22-27 | under a superuser requirement, exactly authenticated superusers pass |
| Mixins.SuperuserBypassesRoles | projectsite/pulse/mixins.py:29-32 | an authenticated superuser passes every policy |
| Mixins.RoleCheck | projectsite/pulse/mixins.py:29-48 | with roles listed, anyone else passes exactly when their profile's role is listed or the organizer membership fallback applies |
| Mixins.OpenPolicy | projectsite/pulse/mixins.py:17-50 | a policy with no roles and no superuser requirement admits exactly the authenticated visitors |
| Mixins.OrganizerViews | projectsite/pulse/mixins.py:68-75 | the two organizer policies admit the same visitors: superusers, the organizer and admin roles, and organization organizers |
| Mixins.UserOrAboveExcludesOrganizerRole | projectsite/pulse/mixins.py:78-80 | an organizer-role profile who is not a superuser is turned away from the users-and-above views |
| Mixins.AdminViews | projectsite/pulse/mixins.py:63-65 | the admin policy admits exactly superusers and the admin role |
| Mixins.HasRole | projectsite/pulse/mixins.py:83-91 | holding a role requires being authenticated with a profile |
| Mixins.RoleHelpers | projectsite/pulse/mixins.py:94-101 | admin means the admin role, organizer means the organizer or admin role, every admin is an organizer, and without a profile one is neither |
| Mixins.RoleCodesDistinct | projectsite/pulse/models.py:20-24 | the three role codes are distinct |
| AuthHelpers.Str | projectsite/pulse/templatetags/auth_helpers.py:165-170 | a truthy value has a non-empty string form |
| AuthHelpers.EqualsIsEquivalence | projectsite/pulse/templatetags/auth_helpers.py:144-146 | Python's `==` on template values is reflexive, symmetric and transitive |
| AuthHelpers.EqualsCases | projectsite/pulse/templatetags/auth_helpers.py:144-146 | values of one kind are equal exactly when they are the same; an integer equals a boolean exactly when it is that boolean's 1 or 0; a string or `None` never equals a value of another kind |
| AuthHelpers.EqualsNumeric | projectsite/pulse/templatetags/auth_helpers.py:144-146 | equal values of which one is numeric read as the same integer |
| AuthHelpers.GetItem | projectsite/pulse/templatetags/auth_helpers.py:150-161 | a dictionary is looked up by the index's string form; a list gives its item at the integer index when in bounds; anything else, a missing key, a bad index or an out-of-range index gives nothing |
| AuthHelpers.ParseIntOfStr | projectsite/pulse/templatetags/auth_helpers.py:155 | `int` reads back every integer's decimal string |
| AuthHelpers.GetItemTextIndex | projectsite/pulse/templatetags/auth_helpers.py:154-157 | on a list, an integer index and its decimal string select the same item |
| AuthHelpers.GetItemDistinctKeys | projectsite/pulse/templatetags/auth_helpers.py:152-153 | on a dictionary, distinct integer indices look up distinct keys |
| AuthHelpers.FirstChar | projectsite/pulse/templatetags/auth_helpers.py:165-170 | a truthy value gives the first character of its string form, a falsy one the empty string |
| AuthHelpers.GetInitials | projectsite/pulse/templatetags/auth_helpers.py:173-182 | the upper-cased first letter of the first name, else of the username, else nothing; never more than one character |
| AuthHelpers.GetDisplayName | projectsite/pulse/templatetags/auth_helpers.py:185-193 | the full name when it is not blank, else the username; nothing without a user |
| AuthHelpers.DisplayNameTrimmed | projectsite/pulse/templatetags/auth_helpers.py:185-193 | a display name taken from the full name has no surrounding whitespace |
| AuthHelpers.BlankNamesShowUsername | projectsite/pulse/templatetags/auth_helpers.py:185-193 | a user whose names are all whitespace is shown by username |

## Left out

- Database access, the ORM's `select_related` and `distinct`, pagination, flash messages, logging, templates, e-mail and JSON parsing of request bodies are left out. These are I/O; the rows a view reads and the fields of a request are parameters.
- Transactions, concurrent requests and the atomicity of the `F()` update in `add_points` are left out. Each operation runs alone.
- Django signals are left out, such as the creation of a profile when a user is created. A profile is created only where the scan view creates one.
- Time zones are left out. `make_aware` is the identity, and an ISO-8601 rendering of an instant is that instant itself.
- The clock and randomness are left out. `timezone.now()` is the `now` parameter. Token and join-code generation are not part of this model.
- Floating point is left out: the summary's percentages and ratios are not modelled, only its integer counts.
- `strip`, `upper` and the `int` parser are modelled on ASCII only. There is no Unicode whitespace, case mapping, non-ASCII digits or `_` separators in `int`.
- `QRCode.objects.get` raising `MultipleObjectsReturned` is left out, because tokens are unique in the model. The first match is taken.
- Query ordering is the order of the given sequences. `order_by` clauses are assumed already applied.
- The summary reads the present types from the ledger's keys (`Views.Present`), not from a separate per-record list. The other statistics of its table rows are left out: has-any-excuse flags, per-type booleans and percentages.
- `Event.is_upcoming`, the registration and capacity helpers (`registered_count`, `available_slots`, `is_full`) and the organization-management views are not part of this model.
- The admin, admin-view, organization-view and e-mail modules are not part of this model.
- AuthHelpers.Str: `str` is modelled for `None`, strings, integers and booleans only. Other template objects are not represented.
- AuthHelpers.GetItem: a dictionary is modelled with string keys only. A dictionary with integer or other non-string keys is not represented; for one, `get(str(index))` would always give `None`.
- AuthHelpers.FullName: Django's `get_full_name` is taken as the stripped join of first and last name with a space. The framework's own code is not part of this model.
- Forms.ExcuseChoices: the model field's own validation of the choice submitted (required, and a member of the list) is Django's and is left out.
- Views.ExcuseStatusMeaning: only the first applicable unrejected excuse is reported, as the view's loop returns. Excuses for other events and users are filtered by the parameters.
- Views.ReviewExcuse: the old status is read from the stored excuse. The view's queryset admits only pending excuses, so "approved and not approved before" reduces to "approved".
- QrViews.ScanQrCode: the texts of the JSON messages, other than the success label, are not modelled. Only the outcome, the status code and the recorded type are.
