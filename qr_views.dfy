/** The QR attendance views: the scanner page's list of scan types that are
    open now, and the scan endpoint's chain of guards followed by the record,
    the points award, the QR code touch and the registration update. */
module QrViews {
  import opened Common
  import opened Models

  // ---------------------------------------------------------------------
  // The signed-in user making a request.
  // ---------------------------------------------------------------------

  /** `profile` is the role of the user's profile, `None` without one;
      `hasOrganizerMembership` is `user_has_organizer_membership`;
      `organizerOrgs` are the active organizations in which the user holds the
      ORGANIZER membership role. */
  datatype Requester = Requester(id: int, isSuperuser: bool, profile: Option<Role>,
                                 hasOrganizerMembership: bool, organizerOrgs: set<int>)

  predicate HasAdminProfile(r: Requester)
  {
    r.profile.Some? && IsAdminProfile(r.isSuperuser, r.profile.value)
  }

  predicate HasOrganizerRights(r: Requester)
  {
    r.profile == Some(Organizer) || r.hasOrganizerMembership
  }

  // ---------------------------------------------------------------------
  // The time window string of the scanner page, read back.
  // ---------------------------------------------------------------------

  const WindowSeparator: string := " - "

  /** `get_end_time_from_window`: the end time of a "start - end" window
      string, placed on the event date; `None` for a missing or empty string, a
      string that is not exactly two parts, an end that does not parse, or a
      missing date. */
  function GetEndTimeFromWindow(window: Option<string>, eventDate: Option<int>): (r: Option<int>)
    ensures r.Some? ==> eventDate.Some? && DateOf(r.value) == eventDate.value
  {
    if window.None? || window.value == [] then None
    else EndOfParts(Split(window.value, WindowSeparator), eventDate)
  }

  /** The end time read from the parts of a split window string. */
  function EndOfParts(parts: seq<string>, eventDate: Option<int>): (r: Option<int>)
    ensures r.Some? ==> eventDate.Some? && DateOf(r.value) == eventDate.value
  {
    if |parts| != 2 then None
    else match Parse12(Strip(parts[1]))
      case None => None
      case Some(t) => if eventDate.Some? then Some(Combine(eventDate.value, t)) else None
  }

  /** A rendered time never holds the separator, nor starts one that runs into
      whatever follows it. */
  lemma {:induction false} NoSeparatorInTime(a: TimeOfDay, rest: string)
    ensures forall j :: 0 <= j < 8 ==> !OccursAt(Format12(a) + rest, WindowSeparator, j)
    ensures forall j :: 0 <= j ==> !OccursAt(Format12(a), WindowSeparator, j)
  {
    var x := Format12(a);
    var s := x + rest;
    forall j | 0 <= j < 8 ensures !OccursAt(s, WindowSeparator, j) {
      if j + 3 <= |s| {
        assert s[j..j + 3][0] == s[j] == x[j];
        if j + 1 < 8 {
          assert s[j..j + 3][1] == s[j + 1] == x[j + 1];
        }
      }
    }
    forall j | 0 <= j ensures !OccursAt(x, WindowSeparator, j) {
      if j + 3 <= |x| {
        assert x[j..j + 3][0] == x[j];
        assert x[j..j + 3][1] == x[j + 1];
      }
    }
  }

  /** A rendered window splits back into its two rendered times. */
  lemma WindowSplits(a: TimeOfDay, b: TimeOfDay)
    ensures Split(Format12(a) + WindowSeparator + Format12(b), WindowSeparator) == [Format12(a), Format12(b)]
  {
    NoSeparatorInTime(a, WindowSeparator + Format12(b));
    assert Format12(a) + (WindowSeparator + Format12(b)) == Format12(a) + WindowSeparator + Format12(b);
    NoSeparatorInTime(b, "");
    SplitJoin(Format12(a), WindowSeparator, Format12(b));
  }

  /** A non-empty window string is read through its parts. */
  lemma WindowThroughParts(w: string, parts: seq<string>, d: int)
    requires w != [] && Split(w, WindowSeparator) == parts
    ensures GetEndTimeFromWindow(Some(w), Some(d)) == EndOfParts(parts, Some(d))
  {
  }

  /** Reading back the end of a rendered "start - end" window gives the end
      time truncated to the minute, on the given date. */
  lemma WindowEndRoundTrip(a: TimeOfDay, b: TimeOfDay, d: int)
    ensures var r := GetEndTimeFromWindow(Some(Format12(a) + WindowSeparator + Format12(b)), Some(d));
            r.Some? && DateOf(r.value) == d && TimeOf(r.value) == b - b % 60
  {
    var x, y := Format12(a), Format12(b);
    var w := x + WindowSeparator + y;
    WindowSplits(a, b);
    StripUnpadded(y);
    Format12Parse12(b);
    var t := Parse12(y).value;
    assert EndOfParts([x, y], Some(d)) == Some(Combine(d, t));
    WindowThroughParts(w, [x, y], d);
  }

  const NoTimeWindow: string := "Event start time + 1 hour"

  /** The text shown when no start time is configured has no end to read. */
  lemma NoTimeWindowHasNoEnd(d: Option<int>)
    ensures GetEndTimeFromWindow(Some(NoTimeWindow), d) == None
  {
    var s := NoTimeWindow;
    forall j | 0 <= j ensures !OccursAt(s, WindowSeparator, j) {
      if j + 3 <= |s| {
        assert s[j..j + 3][1] == s[j + 1];
        assert s[j + 1] != '-';
      }
    }
    assert FindFrom(s, WindowSeparator, 0).None?;
  }

  // ---------------------------------------------------------------------
  // The scanner page.
  // ---------------------------------------------------------------------

  /** `get_end_datetime_for_type`: the configured end time of the type on the scan date. */
  function EndDatetimeForType(e: Event, t: ScanType, now: int): Option<int>
    reads e
  {
    if e.Slot(t).end.Some? then Some(Combine(e.ScanDate(now), e.Slot(t).end.value)) else None
  }

  /** The `end_time` of an entry: the configured end, else the end read back
      from the window text on the event date. */
  function EntryEndTime(e: Event, t: ScanType, now: int): Option<int>
    reads e
  {
    var direct := EndDatetimeForType(e, t, now);
    if direct.Some? then direct else GetEndTimeFromWindow(e.TimeWindow(t), e.eventDate)
  }

  /** The end time an entry shows: the configured end on the scan date; for a
      start time alone, one hour after it on the event date, to the minute;
      nothing otherwise. */
  lemma EntryEndTimeResolved(e: Event, t: ScanType, now: int)
    requires e.Enabled(t)
    ensures e.Slot(t).end.Some? ==> EntryEndTime(e, t, now) == Some(Combine(e.ScanDate(now), e.Slot(t).end.value))
    ensures e.Slot(t).end.None? && e.Slot(t).start.Some? && e.eventDate.Some?
            ==> var r := EntryEndTime(e, t, now);
                var b := (e.Slot(t).start.value + SecondsPerHour) % SecondsPerDay;
                r.Some? && DateOf(r.value) == e.eventDate.value && TimeOf(r.value) == b - b % 60
    ensures e.Slot(t).end.None? && (e.Slot(t).start.None? || e.eventDate.None?) ==> EntryEndTime(e, t, now) == None
  {
    var slot := e.Slot(t);
    if slot.end.None? {
      if slot.start.Some? {
        var b: TimeOfDay := (slot.start.value + SecondsPerHour) % SecondsPerDay;
        assert e.TimeWindow(t) == Some(Format12(slot.start.value) + WindowSeparator + Format12(b));
        if e.eventDate.Some? {
          WindowEndRoundTrip(slot.start.value, b, e.eventDate.value);
        }
      } else {
        NoTimeWindowHasNoEnd(e.eventDate);
      }
    }
  }

  datatype AvailableType = AvailableType(value: ScanType, typeLabel: string, timeWindow: Option<string>, endTime: Option<int>)

  /** The entry shown for one type. */
  function Entry(e: Event, t: ScanType, now: int): AvailableType
    reads e
  {
    AvailableType(t, Label(t), e.TimeWindow(t), EntryEndTime(e, t, now))
  }

  /** The entry of a type when it is open now. */
  function EntryIfOpen(e: Event, t: ScanType, now: int): seq<AvailableType>
    reads e
  {
    if e.CanScan(t, now) then [Entry(e, t, now)] else []
  }

  /** The list the scanner page shows for an event. */
  function Available(e: Event, now: int): seq<AvailableType>
    reads e
  {
    EntryIfOpen(e, MorningIn, now) + EntryIfOpen(e, MorningOut, now)
    + EntryIfOpen(e, AfternoonIn, now) + EntryIfOpen(e, AfternoonOut, now)
  }

  /** The `available_types` of an event on the scanner page, built by one
      append per type that is enabled and open now. */
  method AvailableTypes(e: Event, now: int) returns (r: seq<AvailableType>)
    ensures r == Available(e, now)
  {
    r := [];
    r := AppendIfOpen(r, e, MorningIn, now);
    r := AppendIfOpen(r, e, MorningOut, now);
    r := AppendIfOpen(r, e, AfternoonIn, now);
    r := AppendIfOpen(r, e, AfternoonOut, now);
  }

  /** One of the four guarded appends. */
  method AppendIfOpen(r: seq<AvailableType>, e: Event, t: ScanType, now: int) returns (r': seq<AvailableType>)
    ensures r' == r + EntryIfOpen(e, t, now)
  {
    r' := r;
    if e.Slot(t).enabled && e.CanScan(t, now) {
      r' := r' + [Entry(e, t, now)];
    }
  }

  /** Only types open now are listed. */
  lemma AvailableOnlyOpen(e: Event, now: int)
    ensures forall i :: 0 <= i < |Available(e, now)| ==> e.CanScan(Available(e, now)[i].value, now)
  {
  }

  /** Every type open now is listed, at the position after the open types before it. */
  lemma AvailableHasEveryOpen(e: Event, now: int, t: ScanType)
    requires e.CanScan(t, now)
    ensures exists i :: 0 <= i < |Available(e, now)| && Available(e, now)[i].value == t
  {
    var a, b, c, d := EntryIfOpen(e, MorningIn, now), EntryIfOpen(e, MorningOut, now),
                      EntryIfOpen(e, AfternoonIn, now), EntryIfOpen(e, AfternoonOut, now);
    assert Available(e, now) == a + b + c + d;
    var k := match t
      case MorningIn => 0
      case MorningOut => |a|
      case AfternoonIn => |a| + |b|
      case AfternoonOut => |a| + |b| + |c|;
    assert Available(e, now)[k].value == t;
  }

  /** The list follows the fixed order of the types, so no type is listed twice. */
  lemma AvailableInOrder(e: Event, now: int)
    ensures forall i, j :: 0 <= i < j < |Available(e, now)| ==> Rank(Available(e, now)[i].value) < Rank(Available(e, now)[j].value)
  {
  }

  /** Each listed entry carries its type's label, window text and end time. */
  lemma AvailableEntries(e: Event, now: int)
    ensures forall i :: 0 <= i < |Available(e, now)| ==> Available(e, now)[i] == Entry(e, Available(e, now)[i].value, now)
  {
  }

  /** The events listed on the scanner page: those with a scan type enabled,
      managed by the user (any event for an admin, otherwise an event of one of
      their organizer organizations), and ongoing now. Nothing for a user who
      is neither admin nor organizer. */
  function ScannerEvents(r: Requester, events: seq<Event>, now: int): (listed: seq<Event>)
    reads events
    ensures forall i :: 0 <= i < |listed| ==> listed[i] in events && Listable(listed[i], now)
    ensures forall i :: 0 <= i < |listed| && !IsAdminRequester(r) ==> InOrganizations(listed[i], r.organizerOrgs)
    ensures !(IsAdminRequester(r) || HasOrganizerRights(r)) ==> listed == []
    ensures forall i :: 0 <= i < |events| && Listable(events[i], now) && IsAdminRequester(r) ==> events[i] in listed
    ensures forall i :: 0 <= i < |events| && Listable(events[i], now) && HasOrganizerRights(r)
                        && InOrganizations(events[i], r.organizerOrgs)
                        ==> events[i] in listed
  {
    if !(IsAdminRequester(r) || HasOrganizerRights(r)) then []
    else Listed(IsAdminRequester(r), r.organizerOrgs, events, now)
  }

  /** The scanner page's notion of an administrator: a superuser or an admin profile. */
  predicate IsAdminRequester(r: Requester)
  {
    r.isSuperuser || HasAdminProfile(r)
  }

  predicate Listable(e: Event, now: int)
    reads e
  {
    e.HasAnyAttendanceEnabled() && e.IsOngoing(now)
  }

  predicate InOrganizations(e: Event, orgs: set<int>)
  {
    e.organization.Some? && e.organization.value in orgs
  }

  /** The events kept, in their order. */
  function Listed(admin: bool, orgs: set<int>, events: seq<Event>, now: int): (listed: seq<Event>)
    reads events
    ensures forall i :: 0 <= i < |listed| ==> listed[i] in events && Listable(listed[i], now)
                                              && (admin || InOrganizations(listed[i], orgs))
    ensures forall i :: 0 <= i < |events| && Listable(events[i], now) && (admin || InOrganizations(events[i], orgs))
                        ==> events[i] in listed
  {
    if events == [] then []
    else
      var e := events[0];
      var rest := Listed(admin, orgs, events[1..], now);
      assert forall i :: 1 <= i < |events| ==> events[i] == events[1..][i - 1];
      if Listable(e, now) && (admin || InOrganizations(e, orgs)) then [e] + rest else rest
  }

  // ---------------------------------------------------------------------
  // The scan endpoint.
  // ---------------------------------------------------------------------

  datatype ScanError =
    | InvalidProfile          // no profile and no organizer membership
    | NotOrganizer            // neither admin nor organizer
    | WrongOrganization       // an event of an organization the user does not organize
    | WindowClosed            // `can_scan_attendance` is false
    | TokenRequired
    | InvalidQr
    | RegistrationCancelled
    | NotRegistered
    | TypeRequired
    | InvalidType
    | TypeDisabled
    | TypeWindowClosed        // `can_scan_<type>` is false
    | DuplicateScan
    | InternalError           // an exception caught by the view's outer handler

  /** The HTTP status of each refusal. */
  function HttpStatus(err: ScanError): int
  {
    match err
    case InvalidProfile => 403
    case NotOrganizer => 403
    case WrongOrganization => 403
    case InvalidQr => 404
    case InternalError => 500
    case _ => 400
  }

  /** The permission guards for a user who is not a superuser. The profile of
      a user without one is read when the event belongs to an organization
      they do not organize, which raises. */
  function AuthError(r: Requester, e: Event): Option<ScanError>
  {
    if r.isSuperuser then None
    else if r.profile.None? && !r.hasOrganizerMembership then Some(InvalidProfile)
    else if !(HasAdminProfile(r) || HasOrganizerRights(r)) then Some(NotOrganizer)
    else if e.organization.Some? && e.organization.value !in r.organizerOrgs then
      if r.profile.None? then Some(InternalError)
      else if !HasAdminProfile(r) then Some(WrongOrganization)
      else None
    else None
  }

  /** The refusal when scanning is closed; formatting a missing window bound raises. */
  function WindowError(e: Event, now: int): Option<ScanError>
    reads e
  {
    if e.CanScanAttendance(now) then None
    else if e.WindowStart().None? || e.WindowEnd().None? then Some(InternalError)
    else Some(WindowClosed)
  }

  /** The exact `get(token=..., is_active=True)`: the first active code with this token. */
  function ExactQr(codes: seq<QRCode>, token: string, from: nat): (r: Option<nat>)
    ensures r.Some? ==> from <= r.value < |codes| && codes[r.value].isActive && codes[r.value].token == token
    ensures r.None? ==> forall i :: from <= i < |codes| ==> !(codes[i].isActive && codes[i].token == token)
    decreases |codes| - from
  {
    if from >= |codes| then None
    else if codes[from].isActive && codes[from].token == token then Some(from)
    else ExactQr(codes, token, from + 1)
  }

  /** The fallback search: among the first 100 active codes, the first whose
      token equals the scanned one, possibly after stripping. */
  predicate TokenMatches(stored: string, token: string)
  {
    stored == token || Strip(stored) == Strip(token)
  }

  const FallbackLimit: nat := 100

  function FallbackQr(codes: seq<QRCode>, token: string, from: nat, seen: nat): (r: Option<nat>)
    ensures r.Some? ==> from <= r.value < |codes| && codes[r.value].isActive && TokenMatches(codes[r.value].token, token)
    decreases |codes| - from
  {
    if from >= |codes| || seen >= FallbackLimit then None
    else if !codes[from].isActive then FallbackQr(codes, token, from + 1, seen)
    else if TokenMatches(codes[from].token, token) then Some(from)
    else FallbackQr(codes, token, from + 1, seen + 1)
  }

  /** No code before `i`, from `from` on, is active with exactly this token. */
  lemma {:induction false} ExactQrFirst(codes: seq<QRCode>, token: string, from: nat)
    ensures var r := ExactQr(codes, token, from);
      r.Some? ==> forall j :: from <= j < r.value ==> !(codes[j].isActive && codes[j].token == token)
    decreases |codes| - from
  {
    if from < |codes| && !(codes[from].isActive && codes[from].token == token) {
      ExactQrFirst(codes, token, from + 1);
    }
  }

  /** The number of active codes among the first `i`: how much of the
      fallback query's slice of 100 active codes they take up. */
  function ActiveBefore(codes: seq<QRCode>, i: nat): nat
    requires i <= |codes|
  {
    if i == 0 then 0 else ActiveBefore(codes, i - 1) + (if codes[i - 1].isActive then 1 else 0)
  }

  lemma {:induction false} ActiveBeforeMonotone(codes: seq<QRCode>, i: nat, j: nat)
    requires i <= j <= |codes|
    ensures ActiveBefore(codes, i) <= ActiveBefore(codes, j)
    decreases j - i
  {
    if i < j {
      ActiveBeforeMonotone(codes, i, j - 1);
    }
  }

  /** Code `j` is active and its token matches the scanned one. */
  predicate Hit(codes: seq<QRCode>, token: string, j: nat)
    requires j < |codes|
  {
    codes[j].isActive && TokenMatches(codes[j].token, token)
  }

  /** Code `i` is one of the first 100 active codes the fallback query returns. */
  predicate InFallbackSlice(codes: seq<QRCode>, i: nat)
    requires i < |codes|
  {
    codes[i].isActive && ActiveBefore(codes, i) < FallbackLimit
  }

  /** One step of the fallback loop. */
  lemma FallbackStep(codes: seq<QRCode>, token: string, from: nat, seen: nat)
    requires from < |codes| && seen < FallbackLimit
    ensures FallbackQr(codes, token, from, seen)
            == if Hit(codes, token, from) then Some(from)
               else FallbackQr(codes, token, from + 1, if codes[from].isActive then seen + 1 else seen)
  {
  }

  /** A code at or after `from` that the fallback returns is in the slice,
      and no code between `from` and it is a hit. */
  lemma {:induction false} FallbackFoundFirst(codes: seq<QRCode>, token: string, from: nat, seen: nat)
    requires from <= |codes| && seen == ActiveBefore(codes, from)
    ensures var r := FallbackQr(codes, token, from, seen);
      r.Some? ==> && r.value < |codes| && InFallbackSlice(codes, r.value)
                  && forall j :: from <= j < r.value ==> !Hit(codes, token, j)
    decreases |codes| - from
  {
    if from < |codes| && seen < FallbackLimit {
      FallbackStep(codes, token, from, seen);
      if !Hit(codes, token, from) {
        var next := if codes[from].isActive then seen + 1 else seen;
        assert ActiveBefore(codes, from + 1) == next;
        FallbackFoundFirst(codes, token, from + 1, next);
        var r := FallbackQr(codes, token, from + 1, next);
        assert r == FallbackQr(codes, token, from, seen);
        if r.Some? {
          forall j | from <= j < r.value
            ensures !Hit(codes, token, j)
          {
            if j > from {
              assert from + 1 <= j < r.value;
            }
          }
        }
      }
    }
  }

  /** When the fallback returns nothing from `from` on, no code of the
      slice at or after `from` is a hit. */
  lemma {:induction false} FallbackNoneComplete(codes: seq<QRCode>, token: string, from: nat, seen: nat)
    requires from <= |codes| && seen == ActiveBefore(codes, from)
    requires FallbackQr(codes, token, from, seen).None?
    ensures forall j :: from <= j < |codes| && InFallbackSlice(codes, j) ==> !Hit(codes, token, j)
    decreases |codes| - from
  {
    if from >= |codes| {
    } else if seen >= FallbackLimit {
      forall j | from <= j < |codes|
        ensures ActiveBefore(codes, j) >= FallbackLimit
      {
        ActiveBeforeMonotone(codes, from, j);
      }
    } else {
      FallbackStep(codes, token, from, seen);
      var next := if codes[from].isActive then seen + 1 else seen;
      assert ActiveBefore(codes, from + 1) == next;
      FallbackNoneComplete(codes, token, from + 1, next);
    }
  }

  /** The fallback finds the first active code whose token matches, provided
      it is one of the first 100 active codes; it finds nothing exactly when
      none of those 100 matches. */
  lemma FallbackQrMeaning(codes: seq<QRCode>, token: string)
    ensures var r := FallbackQr(codes, token, 0, 0);
      && (r.Some? ==> r.value < |codes| && InFallbackSlice(codes, r.value) && Hit(codes, token, r.value)
                      && forall j :: 0 <= j < r.value ==> !Hit(codes, token, j))
      && (r.None? ==> forall j :: 0 <= j < |codes| && InFallbackSlice(codes, j) ==> !Hit(codes, token, j))
  {
    FallbackFoundFirst(codes, token, 0, 0);
    if FallbackQr(codes, token, 0, 0).None? {
      FallbackNoneComplete(codes, token, 0, 0);
    }
  }

  /** An active code with exactly this token wins: the lookup returns the
      first such code, even when an earlier code matches only after
      stripping. Without one, the lookup is the fallback's first match
      among the first 100 active codes, or nothing when none of them matches. */
  lemma QrLookupMeaning(codes: seq<QRCode>, token: string)
    ensures var r := QrLookup(codes, token);
      && ((exists i :: 0 <= i < |codes| && codes[i].isActive && codes[i].token == token) ==>
            && r.Some? && r.value < |codes| && codes[r.value].isActive && codes[r.value].token == token
            && forall j :: 0 <= j < r.value ==> !(codes[j].isActive && codes[j].token == token))
      && ((forall i :: 0 <= i < |codes| ==> !(codes[i].isActive && codes[i].token == token)) ==>
            && (r.Some? ==> r.value < |codes| && InFallbackSlice(codes, r.value)
                            && forall j :: 0 <= j < r.value ==> !Hit(codes, token, j))
            && (r.None? ==> forall j :: 0 <= j < |codes| && InFallbackSlice(codes, j) ==> !Hit(codes, token, j)))
  {
    ExactQrFirst(codes, token, 0);
    FallbackQrMeaning(codes, token);
  }

  /** The QR code a cleaned token finds, as an index into the table. */
  function QrLookup(codes: seq<QRCode>, token: string): (r: Option<nat>)
    ensures r.Some? ==> r.value < |codes| && codes[r.value].isActive && TokenMatches(codes[r.value].token, token)
    ensures (exists i :: 0 <= i < |codes| && codes[i].isActive && codes[i].token == token) ==> r.Some?
  {
    var exact := ExactQr(codes, token, 0);
    if exact.Some? then exact else FallbackQr(codes, token, 0, 0)
  }

  /** The lookup as the view performs it: the exact query, then the fallback loop. */
  method FindQrCode(codes: seq<QRCode>, token: string) returns (found: Option<nat>)
    ensures found == QrLookup(codes, token)
  {
    found := ExactQr(codes, token, 0);
    if found.None? {
      found := FallbackSearch(codes, token);
    }
  }

  /** The loop over the first 100 active codes. */
  method FallbackSearch(codes: seq<QRCode>, token: string) returns (found: Option<nat>)
    ensures found == FallbackQr(codes, token, 0, 0)
  {
    var i, seen := 0, 0;
    while i < |codes| && seen < FallbackLimit
      invariant i <= |codes|
      invariant FallbackQr(codes, token, i, seen) == FallbackQr(codes, token, 0, 0)
      decreases |codes| - i
    {
      FallbackStep(codes, token, i, seen);
      if codes[i].isActive {
        if TokenMatches(codes[i].token, token) {
          return Some(i);
        }
        seen := seen + 1;
      }
      i := i + 1;
    }
    return None;
  }

  /** The registration guard for the scanned user. */
  function RegistrationError(e: Event, regs: map<int, Registration>, user: int): Option<ScanError>
    reads regs.Values
  {
    if user in regs then (if regs[user].status == Cancelled then Some(RegistrationCancelled) else None)
    else if !e.IsMandatory() then Some(NotRegistered)
    else None
  }

  datatype Result<T> = Success(value: T) | Failure(error: ScanError)

  /** The type requested: required, then stripped and upper-cased, then one of the four. */
  function ParseScanType(typeStr: Option<string>): (r: Result<ScanType>)
    ensures r.Success? <==> typeStr.Some? && FromCode(Upper(Strip(typeStr.value))).Some?
    ensures r.Success? ==> Code(r.value) == Upper(Strip(typeStr.value))
  {
    if typeStr.None? || typeStr.value == [] then Failure(TypeRequired)
    else match FromCode(Upper(Strip(typeStr.value)))
      case None => Failure(InvalidType)
      case Some(t) => Success(t)
  }

  /** The guards on the requested type for the scanned user: a known type,
      enabled, open now, and not yet recorded. */
  function TypeCheck(e: Event, now: int, user: int, typeStr: Option<string>,
                     records: map<RecordKey, AttendanceRecord>): (c: Result<ScanType>)
    reads e
    ensures c.Success? ==> e.Enabled(c.value) && e.CanScan(c.value, now) && RecordKey(e.id, user, Code(c.value)) !in records
  {
    match ParseScanType(typeStr)
    case Failure(err) => Failure(err)
    case Success(t) =>
      if !e.Enabled(t) then Failure(TypeDisabled)
      else if !e.CanScan(t, now) then Failure(TypeWindowClosed)
      else if RecordKey(e.id, user, Code(t)) in records then Failure(DuplicateScan)
      else Success(t)
  }

  /** The two request fields the view reads. */
  datatype ScanRequest = ScanRequest(token: Option<string>, attendanceType: Option<string>)

  /** Where the guard chain ends: the matched QR code and the scan type, or a
      refusal, with the matched code when the refusal came after the lookup. */
  datatype ScanOutcome = Accepted(qr: nat, kind: ScanType) | Refused(error: ScanError, matched: Option<nat>)

  /** The guards of the scan endpoint, in the order the view applies them. */
  function ScanDecision(r: Requester, e: Event, now: int, codes: seq<QRCode>, req: ScanRequest,
                        regs: map<int, Registration>, records: map<RecordKey, AttendanceRecord>): (d: ScanOutcome)
    reads e, regs.Values
    ensures d.Accepted? ==> d.qr < |codes|
    ensures d.Refused? && d.matched.Some? ==> d.matched.value < |codes|
  {
    var auth := AuthError(r, e);
    if auth.Some? then Refused(auth.value, None)
    else
      var window := WindowError(e, now);
      if window.Some? then Refused(window.value, None)
      else TokenDecision(e, now, codes, req, regs, records)
  }

  /** The guards from the token on: a token, an active code it finds, then
      the scanned user's guards. */
  function TokenDecision(e: Event, now: int, codes: seq<QRCode>, req: ScanRequest,
                         regs: map<int, Registration>, records: map<RecordKey, AttendanceRecord>): (d: ScanOutcome)
    reads e, regs.Values
    ensures d.Accepted? ==> d.qr < |codes|
    ensures d.Refused? && d.matched.Some? ==> d.matched.value < |codes|
  {
    if req.token.None? || req.token.value == [] then Refused(TokenRequired, None)
    else
      var found := QrLookup(codes, Strip(req.token.value));
      if found.None? then Refused(InvalidQr, None)
      else UserDecision(e, now, codes, found.value, req.attendanceType, regs, records)
  }

  /** The guards on the user of the matched code `q`: the registration, then the type. */
  function UserDecision(e: Event, now: int, codes: seq<QRCode>, q: nat, typeStr: Option<string>,
                        regs: map<int, Registration>, records: map<RecordKey, AttendanceRecord>): (d: ScanOutcome)
    requires q < |codes|
    reads e, regs.Values
    ensures d.Accepted? ==> d.qr == q
    ensures d.Refused? ==> d.matched == Some(q)
  {
    var user := codes[q].user;
    var reg := RegistrationError(e, regs, user);
    if reg.Some? then Refused(reg.value, Some(q))
    else match TypeCheck(e, now, user, typeStr, records)
      case Failure(err) => Refused(err, Some(q))
      case Success(t) => Accepted(q, t)
  }

  /** The QR code the outcome matched, if any. */
  function MatchedCode(d: ScanOutcome): Option<nat>
  {
    if d.Accepted? then Some(d.qr) else d.matched
  }

  /** The success message's label: the view keys its label table by the first
      characters of the codes, so the lookup always falls back to the code. */
  const SuccessLabels: map<string, string> :=
    map[[Code(MorningIn)[0]] := Label(MorningIn), [Code(MorningOut)[0]] := Label(MorningOut),
        [Code(AfternoonIn)[0]] := Label(AfternoonIn), [Code(AfternoonOut)[0]] := Label(AfternoonOut)]

  function SuccessLabel(kind: string): string
  {
    if kind in SuccessLabels then SuccessLabels[kind] else kind
  }

  lemma SuccessLabelIsCode(t: ScanType)
    ensures SuccessLabel(Code(t)) == Code(t)
  {
    assert forall k :: k in SuccessLabels ==> |k| == 1;
  }

  /** The reason logged with the points. */
  function AttendanceReason(e: Event, t: ScanType): string
    reads e
  {
    "Attendance: " + e.title + " (" + Code(t) + ")"
  }

  datatype ScanResponse = ScanOk(kind: ScanType, typeLabel: string, pointsAwarded: nat)
                        | ScanFailed(error: ScanError, status: int)

  /** The guard phase of the view: the decision, with the matched QR code's
      organization cleared on the way. */
  method Admit(r: Requester, e: Event, now: int, codes: seq<QRCode>, req: ScanRequest,
               regs: map<int, Registration>, records: map<RecordKey, AttendanceRecord>)
      returns (d: ScanOutcome)
    modifies codes
    ensures d == ScanDecision(r, e, now, codes, req, regs, records)
    ensures d.Accepted? ==> d.qr < |codes| && RecordKey(e.id, codes[d.qr].user, Code(d.kind)) !in records
    ensures MatchedCode(d).Some? ==> codes[MatchedCode(d).value].organization == None
    ensures forall i :: 0 <= i < |codes| && (MatchedCode(d).None? || codes[i] != codes[MatchedCode(d).value])
                        ==> codes[i].organization == old(codes[i].organization)
    ensures forall i :: 0 <= i < |codes| ==> codes[i].lastUsedAt == old(codes[i].lastUsedAt)
  {
    var auth := AuthError(r, e);
    if auth.Some? {
      return Refused(auth.value, None);
    }
    var window := WindowError(e, now);
    if window.Some? {
      return Refused(window.value, None);
    }
    if req.token.None? || req.token.value == [] {
      return Refused(TokenRequired, None);
    }
    var token := Strip(req.token.value);
    var found := FindQrCode(codes, token);
    if found.None? {
      return Refused(InvalidQr, None);
    }
    var qr := codes[found.value];
    if qr.organization.Some? {
      qr.organization := None;
    }
    var user := qr.user;
    var regError := RegistrationError(e, regs, user);
    if regError.Some? {
      return Refused(regError.value, found);
    }
    var checked := TypeCheck(e, now, user, req.attendanceType, records);
    if checked.Failure? {
      return Refused(checked.error, found);
    }
    return Accepted(found.value, checked.value);
  }

  predicate ProfileUnchanged(p: UserProfile, total: int, log: seq<PointsTransaction>)
    reads p
  {
    p.totalPoints == total && p.transactions == log
  }

  /** The scanned user's profile after the award: the old balance and log,
      or a fresh User profile's, plus the award and its transaction row. */
  predicate Credited(e: Event, t: ScanType, award: nat, user: int, profiles: map<int, UserProfile>,
                     profilesAfter: map<int, UserProfile>, oldTotal: int, oldLog: seq<PointsTransaction>)
    reads e, profilesAfter.Values
  {
    && user in profilesAfter
    && profilesAfter == profiles[user := profilesAfter[user]]
    && (user !in profiles ==> profilesAfter[user].role == User)
    && profilesAfter[user].totalPoints == oldTotal + award
    && profilesAfter[user].transactions
       == oldLog + [PointsTransaction(award, AttendanceReason(e, t), Some(e.id), oldTotal + award)]
  }

  /** The award step: `get_or_create` the user's profile, with the User role
      when it is missing, and `add_points` on it. */
  method CreditPoints(e: Event, t: ScanType, award: nat, user: int, profiles: map<int, UserProfile>)
      returns (profilesAfter: map<int, UserProfile>)
    requires award > 0
    requires forall u :: u in profiles ==> profiles[u].user == u
    modifies profiles.Values
    ensures Credited(e, t, award, user, profiles, profilesAfter,
                     if user in profiles then old(profiles[user].totalPoints) else 0,
                     if user in profiles then old(profiles[user].transactions) else [])
    ensures user !in profiles ==> fresh(profilesAfter[user])
    ensures forall u :: u in profiles && u != user
              ==> ProfileUnchanged(profiles[u], old(profiles[u].totalPoints), old(profiles[u].transactions))
  {
    var profile: UserProfile;
    profilesAfter := profiles;
    if user in profiles {
      profile := profiles[user];
    } else {
      profile := new UserProfile(user, User);
      profilesAfter := profiles[user := profile];
    }
    profile.AddPoints(award, AttendanceReason(e, t), Some(e.id));
  }

  /** The scans that mark the registration attended. */
  predicate IsTimeIn(t: ScanType)
  {
    t == MorningIn || t == AfternoonIn
  }

  /** The status update: a time-in marks the user's registration attended. */
  method MarkTimeIn(regs: map<int, Registration>, user: int, t: ScanType)
    requires forall u :: u in regs ==> regs[u].user == u
    modifies regs.Values
    ensures forall u :: u in regs ==> regs[u].status == (if u == user && IsTimeIn(t) then Attended else old(regs[u].status))
    ensures forall u :: u in regs ==> regs[u].isMandatory == old(regs[u].isMandatory)
                                      && regs[u].checkedInAt == old(regs[u].checkedInAt)
  {
    if user in regs && (t == MorningIn || t == AfternoonIn) {
      regs[user].status := Attended;
    }
  }

  /** `AttendanceRecord.objects.create` with no points, then the per-scan
      award (the event's points split evenly over its enabled types) saved
      on it. */
  method StoreAttendance(r: Requester, e: Event, key: RecordKey, ledger: AttendanceLedger) returns (award: nat)
    requires key !in ledger.records
    modifies ledger
    ensures award == PointsPerScan(e.GetPoints(), e.EnabledCount())
    ensures ledger.records == old(ledger.records)[key := AttendanceRecord(Some(r.id), award, "")]
  {
    var created := ledger.Create(key, AttendanceRecord(Some(r.id), 0, ""));
    var enabledCount := e.EnabledCount();
    if enabledCount == 0 {
      award := 0;
    } else {
      award := e.GetPoints() / enabledCount;
    }
    ledger.records := ledger.records[key := AttendanceRecord(Some(r.id), award, "")];
  }

  /** The JSON answer for an outcome. */
  function ResponseFor(d: ScanOutcome, award: nat): ScanResponse
  {
    match d
    case Refused(err, _) => ScanFailed(err, HttpStatus(err))
    case Accepted(_, t) => ScanOk(t, Code(t), award)
  }

  /** The attendance table after the outcome: one new record for an accepted scan. */
  function RecordsAfter(records: map<RecordKey, AttendanceRecord>, r: Requester, e: Event, codes: seq<QRCode>,
                        d: ScanOutcome, award: nat): map<RecordKey, AttendanceRecord>
    requires d.Accepted? ==> d.qr < |codes|
    reads e
  {
    if d.Refused? then records
    else records[RecordKey(e.id, codes[d.qr].user, Code(d.kind)) := AttendanceRecord(Some(r.id), award, "")]
  }

  /** `ScanQRCodeView.post`. `codes` is the QR code table in its query order,
      `regs` maps users to their registration for `e`, `profiles` maps users
      to their profile; `profilesAfter` adds the profile `get_or_create` makes. */
  method ScanQrCode(r: Requester, e: Event, now: int, codes: seq<QRCode>, req: ScanRequest,
                    regs: map<int, Registration>, ledger: AttendanceLedger, profiles: map<int, UserProfile>)
      returns (response: ScanResponse, d: ScanOutcome, profilesAfter: map<int, UserProfile>)
    requires forall u :: u in regs ==> regs[u].user == u
    requires forall u :: u in profiles ==> profiles[u].user == u
    modifies ledger, codes, regs.Values, profiles.Values
    ensures d == old(ScanDecision(r, e, now, codes, req, regs, ledger.records))
    ensures response == ResponseFor(d, PointsPerScan(e.GetPoints(), e.EnabledCount()))
    ensures ledger.records == RecordsAfter(old(ledger.records), r, e, codes, d, PointsPerScan(e.GetPoints(), e.EnabledCount()))
    // the matched QR code loses its organization; an accepted scan also stamps it
    ensures MatchedCode(d).Some? ==> codes[MatchedCode(d).value].organization == None
    ensures d.Accepted? ==> codes[d.qr].lastUsedAt == Some(now)
    ensures forall i :: 0 <= i < |codes| && (MatchedCode(d).None? || codes[i] != codes[MatchedCode(d).value])
                        ==> codes[i].organization == old(codes[i].organization)
                            && codes[i].lastUsedAt == old(codes[i].lastUsedAt)
    ensures d.Refused? ==> forall i :: 0 <= i < |codes| ==> codes[i].lastUsedAt == old(codes[i].lastUsedAt)
    // only an accepted time-in changes a registration
    ensures forall u :: u in regs ==> regs[u].status == (if d.Accepted? && u == codes[d.qr].user && IsTimeIn(d.kind)
                                                          then Attended else old(regs[u].status))
    ensures forall u :: u in regs ==> regs[u].isMandatory == old(regs[u].isMandatory)
                                      && regs[u].checkedInAt == old(regs[u].checkedInAt)
    // only an accepted scan with a positive award changes a profile
    ensures var credited := d.Accepted? && PointsPerScan(e.GetPoints(), e.EnabledCount()) > 0;
            forall u :: u in profiles && !(credited && u == codes[d.qr].user)
              ==> ProfileUnchanged(profiles[u], old(profiles[u].totalPoints), old(profiles[u].transactions))
    ensures !(d.Accepted? && PointsPerScan(e.GetPoints(), e.EnabledCount()) > 0) ==> profilesAfter == profiles
    ensures d.Accepted? && PointsPerScan(e.GetPoints(), e.EnabledCount()) > 0
            ==> var user := codes[d.qr].user;
                Credited(e, d.kind, PointsPerScan(e.GetPoints(), e.EnabledCount()), user, profiles, profilesAfter,
                         if user in profiles then old(profiles[user].totalPoints) else 0,
                         if user in profiles then old(profiles[user].transactions) else [])
  {
    profilesAfter := profiles;
    d := Admit(r, e, now, codes, req, regs, ledger.records);
    if d.Refused? {
      return ScanFailed(d.error, HttpStatus(d.error)), d, profilesAfter;
    }
    var award;
    award, profilesAfter := Complete(r, e, now, codes[d.qr], d.kind, regs, ledger, profiles);
    SuccessLabelIsCode(d.kind);
    response := ScanOk(d.kind, SuccessLabel(Code(d.kind)), award);
  }

  /** The view for an event id: `get_object_or_404` runs inside the view's
      `try`, so an unknown event raises `Http404`, which the outer handler
      answers with the 500 JSON response before any other check and
      without changing anything; a known event goes through the scan. */
  method ScanQrCodeForId(r: Requester, event: Option<Event>, now: int, codes: seq<QRCode>, req: ScanRequest,
                         regs: map<int, Registration>, ledger: AttendanceLedger, profiles: map<int, UserProfile>)
      returns (response: ScanResponse, profilesAfter: map<int, UserProfile>)
    requires forall u :: u in regs ==> regs[u].user == u
    requires forall u :: u in profiles ==> profiles[u].user == u
    modifies ledger, codes, regs.Values, profiles.Values
    ensures event.None? ==> && response == ScanFailed(InternalError, 500) && profilesAfter == profiles
                            && unchanged(ledger) && unchanged(codes) && unchanged(regs.Values) && unchanged(profiles.Values)
    ensures event.Some? ==>
      var e := event.value;
      var d := old(ScanDecision(r, e, now, codes, req, regs, ledger.records));
      && response == ResponseFor(d, PointsPerScan(e.GetPoints(), e.EnabledCount()))
      && ledger.records == RecordsAfter(old(ledger.records), r, e, codes, d, PointsPerScan(e.GetPoints(), e.EnabledCount()))
  {
    if event.None? {
      return ScanFailed(InternalError, HttpStatus(InternalError)), profiles;
    }
    var d;
    response, d, profilesAfter := ScanQrCode(r, event.value, now, codes, req, regs, ledger, profiles);
  }

  /** The effects of an accepted scan: the attendance record with its award,
      the points for a positive award, the QR code's stamp and the
      registration's status. */
  method Complete(r: Requester, e: Event, now: int, qr: QRCode, t: ScanType,
                  regs: map<int, Registration>, ledger: AttendanceLedger, profiles: map<int, UserProfile>)
      returns (award: nat, profilesAfter: map<int, UserProfile>)
    requires RecordKey(e.id, qr.user, Code(t)) !in ledger.records
    requires forall u :: u in regs ==> regs[u].user == u
    requires forall u :: u in profiles ==> profiles[u].user == u
    modifies ledger, qr, regs.Values, profiles.Values
    ensures award == PointsPerScan(e.GetPoints(), e.EnabledCount())
    ensures ledger.records == old(ledger.records)[RecordKey(e.id, qr.user, Code(t)) := AttendanceRecord(Some(r.id), award, "")]
    ensures qr.lastUsedAt == Some(now) && qr.organization == old(qr.organization)
    ensures forall u :: u in regs ==> regs[u].status == (if u == qr.user && IsTimeIn(t) then Attended else old(regs[u].status))
    ensures forall u :: u in regs ==> regs[u].isMandatory == old(regs[u].isMandatory)
                                      && regs[u].checkedInAt == old(regs[u].checkedInAt)
    ensures forall u :: u in profiles && !(award > 0 && u == qr.user)
              ==> ProfileUnchanged(profiles[u], old(profiles[u].totalPoints), old(profiles[u].transactions))
    ensures award == 0 ==> profilesAfter == profiles
    ensures award > 0 ==> Credited(e, t, award, qr.user, profiles, profilesAfter,
                                   if qr.user in profiles then old(profiles[qr.user].totalPoints) else 0,
                                   if qr.user in profiles then old(profiles[qr.user].transactions) else [])
  {
    profilesAfter := profiles;
    var user := qr.user;
    award := StoreAttendance(r, e, RecordKey(e.id, user, Code(t)), ledger);
    if award > 0 {
      profilesAfter := CreditPoints(e, t, award, user, profiles);
    }
    qr.lastUsedAt := Some(now);
    MarkTimeIn(regs, user, t);
  }

  // ---------------------------------------------------------------------
  // Properties of the guard chain.
  // ---------------------------------------------------------------------

  /** An accepted scan passed every guard: the user may scan this event,
      scanning and the type's own window are open, the token found an active
      code, the registration is not cancelled (or is not needed for a
      mandatory event), the requested type normalizes to an enabled type, and
      the user has no record of that type yet. */
  lemma AcceptedPassedEveryGuard(r: Requester, e: Event, now: int, codes: seq<QRCode>, req: ScanRequest,
                                 regs: map<int, Registration>, records: map<RecordKey, AttendanceRecord>)
    requires ScanDecision(r, e, now, codes, req, regs, records).Accepted?
    ensures var d := ScanDecision(r, e, now, codes, req, regs, records);
            var user := codes[d.qr].user;
            && AuthError(r, e).None?
            && e.CanScanAttendance(now)
            && req.token.Some? && QrLookup(codes, Strip(req.token.value)) == Some(d.qr) && codes[d.qr].isActive
            && (user in regs ==> regs[user].status != Cancelled)
            && (user !in regs ==> e.IsMandatory())
            && req.attendanceType.Some? && Upper(Strip(req.attendanceType.value)) == Code(d.kind)
            && e.Enabled(d.kind) && e.CanScan(d.kind, now)
            && RecordKey(e.id, user, Code(d.kind)) !in records
  {
    var d := ScanDecision(r, e, now, codes, req, regs, records);
    var found := QrLookup(codes, Strip(req.token.value));
    assert found == Some(d.qr);
    TypeCheckAccepts(e, now, codes[d.qr].user, req.attendanceType, records);
  }

  lemma TypeCheckAccepts(e: Event, now: int, user: int, typeStr: Option<string>,
                         records: map<RecordKey, AttendanceRecord>)
    ensures var c := TypeCheck(e, now, user, typeStr, records);
            c.Success? <==> typeStr.Some? && FromCode(Upper(Strip(typeStr.value))).Some?
                            && var t := FromCode(Upper(Strip(typeStr.value))).value;
                               e.Enabled(t) && e.CanScan(t, now) && RecordKey(e.id, user, Code(t)) !in records
    ensures var c := TypeCheck(e, now, user, typeStr, records);
            c.Success? ==> Upper(Strip(typeStr.value)) == Code(c.value)
  {
  }

  /** The converse: a scan that passes the permission, token and
      registration guards and asks for a type that is open and not yet
      recorded is accepted, whatever the overall window says. */
  lemma AcceptedWhenTypeOpen(r: Requester, e: Event, now: int, codes: seq<QRCode>, req: ScanRequest,
                             regs: map<int, Registration>, records: map<RecordKey, AttendanceRecord>, q: nat, t: ScanType)
    requires AuthError(r, e).None?
    requires req.token.Some? && req.token.value != [] && QrLookup(codes, Strip(req.token.value)) == Some(q)
    requires RegistrationError(e, regs, codes[q].user).None?
    requires req.attendanceType.Some? && Upper(Strip(req.attendanceType.value)) == Code(t)
    requires e.CanScan(t, now) && RecordKey(e.id, codes[q].user, Code(t)) !in records
    ensures ScanDecision(r, e, now, codes, req, regs, records) == Accepted(q, t)
  {
    TypeCheckSucceeds(e, now, codes[q].user, req.attendanceType, records, t);
    assert UserDecision(e, now, codes, q, req.attendanceType, regs, records) == Accepted(q, t);
    assert TokenDecision(e, now, codes, req, regs, records) == Accepted(q, t);
    CanScanImpliesCanScanAttendance(e, t, now);
  }

  /** A requested type that normalizes to an open, unrecorded type passes the type guards. */
  lemma TypeCheckSucceeds(e: Event, now: int, user: int, typeStr: Option<string>,
                          records: map<RecordKey, AttendanceRecord>, t: ScanType)
    requires typeStr.Some? && Upper(Strip(typeStr.value)) == Code(t)
    requires e.CanScan(t, now) && RecordKey(e.id, user, Code(t)) !in records
    ensures TypeCheck(e, now, user, typeStr, records) == Success(t)
  {
    CanScanImpliesCanScanAttendance(e, t, now);
    assert ParseScanType(typeStr) == Success(t);
  }

  /** Every code is already stripped and upper case. */
  lemma CodeIsNormal(t: ScanType)
    ensures Upper(Strip(Code(t))) == Code(t)
  {
    var c := Code(t);
    StripUnpadded(c);
    UpperWithoutLower(c);
  }

  /** Scanning the type the model names as the user's next scan is accepted
      once the other guards pass. */
  lemma NextScanIsAccepted(r: Requester, e: Event, now: int, codes: seq<QRCode>, token: string,
                           regs: map<int, Registration>, ledger: AttendanceLedger, q: nat)
    requires AuthError(r, e).None?
    requires token != [] && QrLookup(codes, Strip(token)) == Some(q)
    requires RegistrationError(e, regs, codes[q].user).None?
    requires GetAttendanceType(e, ledger.Recorded(e.id, codes[q].user), now).Some?
    ensures var t := GetAttendanceType(e, ledger.Recorded(e.id, codes[q].user), now).value;
            ScanDecision(r, e, now, codes, ScanRequest(Some(token), Some(Code(t))), regs, ledger.records) == Accepted(q, t)
  {
    var t := GetAttendanceType(e, ledger.Recorded(e.id, codes[q].user), now).value;
    CodeIsNormal(t);
    AcceptedWhenTypeOpen(r, e, now, codes, ScanRequest(Some(token), Some(Code(t))), regs, ledger.records, q, t);
  }

  /** A requested type that does not normalize to one of the four codes is
      refused as invalid, and a known type that is not open now is refused. */
  lemma BadTypeIsRefused(r: Requester, e: Event, now: int, codes: seq<QRCode>, req: ScanRequest,
                         regs: map<int, Registration>, records: map<RecordKey, AttendanceRecord>)
    ensures req.attendanceType.Some? && FromCode(Upper(Strip(req.attendanceType.value))).None?
            ==> ScanDecision(r, e, now, codes, req, regs, records).Refused?
    ensures req.attendanceType.Some? && FromCode(Upper(Strip(req.attendanceType.value))).Some?
            && !e.CanScan(FromCode(Upper(Strip(req.attendanceType.value))).value, now)
            ==> ScanDecision(r, e, now, codes, req, regs, records).Refused?
  {
    var d := ScanDecision(r, e, now, codes, req, regs, records);
    if d.Accepted? {
      AcceptedPassedEveryGuard(r, e, now, codes, req, regs, records);
    }
  }

  /** A cancelled registration blocks the scan; a missing one blocks it only
      for an event that is not mandatory. */
  lemma RegistrationBlocks(r: Requester, e: Event, now: int, codes: seq<QRCode>, req: ScanRequest,
                           regs: map<int, Registration>, records: map<RecordKey, AttendanceRecord>, q: nat)
    requires req.token.Some? && QrLookup(codes, Strip(req.token.value)) == Some(q)
    ensures codes[q].user in regs && regs[codes[q].user].status == Cancelled
            ==> ScanDecision(r, e, now, codes, req, regs, records).Refused?
    ensures codes[q].user !in regs && !e.IsMandatory()
            ==> ScanDecision(r, e, now, codes, req, regs, records).Refused?
  {
    var d := ScanDecision(r, e, now, codes, req, regs, records);
    if d.Accepted? {
      AcceptedPassedEveryGuard(r, e, now, codes, req, regs, records);
    }
  }

  /** Once a scan is accepted and recorded, the same scan is refused as a duplicate. */
  lemma SecondScanIsDuplicate(r: Requester, e: Event, now: int, codes: seq<QRCode>, req: ScanRequest,
                              regs: map<int, Registration>, records: map<RecordKey, AttendanceRecord>, rec: AttendanceRecord)
    requires ScanDecision(r, e, now, codes, req, regs, records).Accepted?
    ensures var d := ScanDecision(r, e, now, codes, req, regs, records);
            var key := RecordKey(e.id, codes[d.qr].user, Code(d.kind));
            ScanDecision(r, e, now, codes, req, regs, records[key := rec]) == Refused(DuplicateScan, Some(d.qr))
  {
    var d := ScanDecision(r, e, now, codes, req, regs, records);
    AcceptedPassedEveryGuard(r, e, now, codes, req, regs, records);
    TypeCheckAccepts(e, now, codes[d.qr].user, req.attendanceType, records);
  }

  /** A superuser is never refused on permission grounds; a user without a
      profile or an organizer membership always is; a user who passes is an
      admin or an organizer, of the event's organization unless an admin. */
  lemma PermissionGuards(r: Requester, e: Event)
    ensures r.isSuperuser ==> AuthError(r, e).None?
    ensures !r.isSuperuser && r.profile.None? && !r.hasOrganizerMembership ==> AuthError(r, e) == Some(InvalidProfile)
    ensures !r.isSuperuser && AuthError(r, e).None? ==> HasAdminProfile(r) || HasOrganizerRights(r)
    ensures !r.isSuperuser && AuthError(r, e).None? && e.organization.Some?
            ==> e.organization.value in r.organizerOrgs || HasAdminProfile(r)
  {
  }
}
