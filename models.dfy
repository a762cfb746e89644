/** The records of the attendance engine: user profiles with their points
    ledger, organization invites, events with their four scan slots and the
    time rules that open and close them, registrations, attendance records
    and excuses. */
module Models {
  import opened Common

  // ---------------------------------------------------------------------
  // Scan types.
  // ---------------------------------------------------------------------

  /** `AttendanceRecord.AttendanceType`: the four scans an event can ask for. */
  datatype ScanType = MorningIn | MorningOut | AfternoonIn | AfternoonOut

  /** The fixed priority order in which the scan types are considered. */
  const ScanOrder: seq<ScanType> := [MorningIn, MorningOut, AfternoonIn, AfternoonOut]

  function Rank(t: ScanType): (i: nat)
    ensures i < |ScanOrder| && ScanOrder[i] == t
  {
    match t
    case MorningIn => 0
    case MorningOut => 1
    case AfternoonIn => 2
    case AfternoonOut => 3
  }

  /** The stored value of a scan type. */
  function Code(t: ScanType): (c: string)
    ensures c != [] && forall i :: 0 <= i < |c| ==> 'A' <= c[i] <= 'Z' || c[i] == '_'
  {
    match t
    case MorningIn => "MORNING_IN"
    case MorningOut => "MORNING_OUT"
    case AfternoonIn => "AFTERNOON_IN"
    case AfternoonOut => "AFTERNOON_OUT"
  }

  /** The display label of a scan type. */
  function Label(t: ScanType): string
  {
    match t
    case MorningIn => "Morning Time In"
    case MorningOut => "Morning Time Out"
    case AfternoonIn => "Afternoon Time In"
    case AfternoonOut => "Afternoon Time Out"
  }

  /** The scan type a stored value names, if any. */
  function FromCode(s: string): (r: Option<ScanType>)
    ensures forall t :: r == Some(t) <==> Code(t) == s
  {
    if s == "MORNING_IN" then Some(MorningIn)
    else if s == "MORNING_OUT" then Some(MorningOut)
    else if s == "AFTERNOON_IN" then Some(AfternoonIn)
    else if s == "AFTERNOON_OUT" then Some(AfternoonOut)
    else None
  }

  /** The stored value of the excuse scope that covers every scan type. */
  const AllCode: string := "ALL"
  const AllLabel: string := "All Attendance Types"

  /** The source compares excuse scopes against `AttendanceType.ALL[0]`.
      A choices member is a `str`, so that is its first character, "A". */
  const AllMarker: string := [AllCode[0]]

  // ---------------------------------------------------------------------
  // User profiles and the points ledger.
  // ---------------------------------------------------------------------

  datatype Role = Admin | Organizer | User

  /** The stored value of a role. */
  function RoleCode(r: Role): string
  {
    match r
    case Admin => "ADMIN"
    case Organizer => "ORGANIZER"
    case User => "USER"
  }

  /** One row of the append-only points log. */
  datatype PointsTransaction = PointsTransaction(amount: int, reason: string, event: Option<int>, balanceAfter: int)

  function SumAmounts(ts: seq<PointsTransaction>): int
  {
    if ts == [] then 0 else SumAmounts(ts[..|ts| - 1]) + ts[|ts| - 1].amount
  }

  /** Each row's snapshot is the previous row's snapshot plus its own amount. */
  predicate Chained(ts: seq<PointsTransaction>)
  {
    forall i :: 0 < i < |ts| ==> ts[i].balanceAfter == ts[i - 1].balanceAfter + ts[i].amount
  }

  /** A chained log telescopes: the last snapshot is the balance before the
      first row plus the sum of all amounts. */
  lemma {:induction false} ChainedTelescopes(ts: seq<PointsTransaction>)
    requires ts != [] && Chained(ts)
    ensures ts[|ts| - 1].balanceAfter == ts[0].balanceAfter - ts[0].amount + SumAmounts(ts)
    decreases |ts|
  {
    if |ts| > 1 {
      var init := ts[..|ts| - 1];
      assert Chained(init);
      ChainedTelescopes(init);
      assert init[0] == ts[0];
    } else {
      assert ts[..0] == [];
    }
  }

  /** `UserProfile.is_admin` of a profile with role `role` whose user has
      `is_superuser` set as given: a superuser or the ADMIN role. */
  predicate IsAdminProfile(isSuperuser: bool, role: Role)
  {
    isSuperuser || role == Admin
  }

  class UserProfile {
    const user: int
    const role: Role
    var totalPoints: int
    var transactions: seq<PointsTransaction>

    constructor(user: int, role: Role)
      ensures this.user == user && this.role == role
      ensures totalPoints == 0 && transactions == []
    {
      this.user := user;
      this.role := role;
      totalPoints := 0;
      transactions := [];
    }

    /** The total agrees with the last snapshot and the snapshots are chained. */
    predicate Consistent()
      reads this
    {
      Chained(transactions) && (transactions == [] || transactions[|transactions| - 1].balanceAfter == totalPoints)
    }

    /** `add_points`: a zero amount does nothing; any other amount moves the
        total by exactly that amount and appends one row holding the new total. */
    method AddPoints(amount: int, reason: string, event: Option<int>)
      modifies this
      ensures amount == 0 ==> totalPoints == old(totalPoints) && transactions == old(transactions)
      ensures amount != 0 ==> totalPoints == old(totalPoints) + amount
      ensures amount != 0 ==> transactions == old(transactions) + [PointsTransaction(amount, reason, event, totalPoints)]
      ensures old(Consistent()) ==> Consistent()
    {
      if amount == 0 {
        return;
      }
      totalPoints := totalPoints + amount;
      transactions := transactions + [PointsTransaction(amount, reason, event, totalPoints)];
    }
  }

  /** Starting from a fresh profile, the total is the sum of the logged amounts. */
  lemma ConsistentTotal(p: UserProfile)
    requires p.Consistent() && p.transactions != []
    requires p.transactions[0].balanceAfter == p.transactions[0].amount
    ensures p.totalPoints == SumAmounts(p.transactions)
  {
    ChainedTelescopes(p.transactions);
  }

  // ---------------------------------------------------------------------
  // Organization invites.
  // ---------------------------------------------------------------------

  class OrganizationInvite {
    const isActive: bool
    const expiresAt: Option<int>
    /** `None` and 0 both mean unlimited: the source tests the field's truth value. */
    const maxUses: Option<nat>
    var usedCount: nat

    constructor(isActive: bool, expiresAt: Option<int>, maxUses: Option<nat>)
      ensures this.isActive == isActive && this.expiresAt == expiresAt && this.maxUses == maxUses
      ensures usedCount == 0
    {
      this.isActive := isActive;
      this.expiresAt := expiresAt;
      this.maxUses := maxUses;
      usedCount := 0;
    }

    predicate IsValid(now: int)
      reads this
    {
      if !isActive then false
      else if expiresAt.Some? && now > expiresAt.value then false
      else if maxUses.Some? && maxUses.value != 0 && usedCount >= maxUses.value then false
      else true
    }

    /** `use`: one more use, nothing else changes; an invalid invite stays invalid. */
    method Use()
      modifies this
      ensures usedCount == old(usedCount) + 1
      ensures forall now :: old(!IsValid(now)) ==> !IsValid(now)
    {
      usedCount := usedCount + 1;
    }
  }

  /** An invite is rejected when inactive, expired or used up; a zero cap is no cap. */
  lemma InviteRejections(inv: OrganizationInvite, now: int)
    ensures !inv.isActive ==> !inv.IsValid(now)
    ensures inv.expiresAt.Some? && now > inv.expiresAt.value ==> !inv.IsValid(now)
    ensures inv.maxUses.Some? && inv.maxUses.value > 0 && inv.usedCount >= inv.maxUses.value ==> !inv.IsValid(now)
    ensures inv.isActive && inv.expiresAt.None? && (inv.maxUses.None? || inv.maxUses.value == 0) ==> inv.IsValid(now)
  {
  }

  /** Validity only ever ends as time passes. */
  lemma InviteValidityMonotone(inv: OrganizationInvite, now: int, later: int)
    requires now <= later && inv.IsValid(later)
    ensures inv.IsValid(now)
  {
  }

  // ---------------------------------------------------------------------
  // Events.
  // ---------------------------------------------------------------------

  datatype EventType = Mandatory | Optional

  /** One scan type's configuration on an event: `enable_<type>`,
      `<type>_start` and `<type>_end`. */
  datatype ScanSlot = ScanSlot(enabled: bool, start: Option<TimeOfDay>, end: Option<TimeOfDay>)

  /** Points of an event without its own value. */
  const DefaultPoints: nat := 10

  /** What each scan is worth: the event's points split evenly over the
      enabled types and rounded down, or nothing when none is enabled. */
  function PointsPerScan(points: nat, enabledCount: nat): (award: nat)
    ensures enabledCount * award <= points
    ensures enabledCount > 0 ==> points < enabledCount * (award + 1)
    ensures enabledCount == 0 ==> award == 0
  {
    if enabledCount == 0 then 0 else points / enabledCount
  }

  class Event {
    const id: int
    const title: string
    const organization: Option<int>
    const eventType: EventType
    const isPublic: bool
    const eventDate: Option<int>
    const registrationDeadline: Option<int>
    var startDatetime: Option<int>
    var endDatetime: Option<int>
    const points: Option<nat>
    const morningIn: ScanSlot
    const morningOut: ScanSlot
    const afternoonIn: ScanSlot
    const afternoonOut: ScanSlot
    const attendanceWindowStart: Option<int>
    const attendanceWindowEnd: Option<int>

    constructor(id: int, title: string, organization: Option<int>, eventType: EventType, isPublic: bool,
                eventDate: Option<int>, registrationDeadline: Option<int>,
                startDatetime: Option<int>, endDatetime: Option<int>, points: Option<nat>,
                morningIn: ScanSlot, morningOut: ScanSlot, afternoonIn: ScanSlot, afternoonOut: ScanSlot,
                attendanceWindowStart: Option<int>, attendanceWindowEnd: Option<int>)
      ensures this.id == id && this.title == title && this.organization == organization
      ensures this.eventType == eventType && this.isPublic == isPublic
      ensures this.eventDate == eventDate && this.registrationDeadline == registrationDeadline
      ensures this.startDatetime == startDatetime && this.endDatetime == endDatetime && this.points == points
      ensures this.morningIn == morningIn && this.morningOut == morningOut
      ensures this.afternoonIn == afternoonIn && this.afternoonOut == afternoonOut
      ensures this.attendanceWindowStart == attendanceWindowStart && this.attendanceWindowEnd == attendanceWindowEnd
    {
      this.id := id;
      this.title := title;
      this.organization := organization;
      this.eventType := eventType;
      this.isPublic := isPublic;
      this.eventDate := eventDate;
      this.registrationDeadline := registrationDeadline;
      this.startDatetime := startDatetime;
      this.endDatetime := endDatetime;
      this.points := points;
      this.morningIn := morningIn;
      this.morningOut := morningOut;
      this.afternoonIn := afternoonIn;
      this.afternoonOut := afternoonOut;
      this.attendanceWindowStart := attendanceWindowStart;
      this.attendanceWindowEnd := attendanceWindowEnd;
    }

    function Slot(t: ScanType): ScanSlot
    {
      match t
      case MorningIn => morningIn
      case MorningOut => morningOut
      case AfternoonIn => afternoonIn
      case AfternoonOut => afternoonOut
    }

    predicate Enabled(t: ScanType)
    {
      Slot(t).enabled
    }

    /** `has_any_attendance_enabled`. */
    predicate HasAnyAttendanceEnabled()
    {
      morningIn.enabled || morningOut.enabled || afternoonIn.enabled || afternoonOut.enabled
    }

    /** The `enabled_count` of the views: the sum of the four flags. */
    function EnabledCount(): nat
    {
      (if morningIn.enabled then 1 else 0) + (if morningOut.enabled then 1 else 0)
      + (if afternoonIn.enabled then 1 else 0) + (if afternoonOut.enabled then 1 else 0)
    }

    /** The enabled types in the fixed order. */
    function EnabledTypes(): (r: seq<ScanType>)
      ensures |r| == EnabledCount()
      ensures forall t :: t in r <==> Enabled(t)
      ensures forall i, j :: 0 <= i < j < |r| ==> Rank(r[i]) < Rank(r[j])
    {
      (if morningIn.enabled then [MorningIn] else []) + (if morningOut.enabled then [MorningOut] else [])
      + (if afternoonIn.enabled then [AfternoonIn] else []) + (if afternoonOut.enabled then [AfternoonOut] else [])
    }

    /** `get_points`. */
    function GetPoints(): nat
    {
      if points.Some? then points.value else DefaultPoints
    }

    predicate IsMandatory()
    {
      eventType == Mandatory
    }

    /** `save`: a dated event gets the start and end of its day as its
        datetimes, each only where that datetime is unset. */
    method Save()
      modifies this
      ensures eventDate.Some? && old(startDatetime).None? ==> startDatetime == Some(Combine(eventDate.value, 0))
      ensures eventDate.Some? && old(endDatetime).None? ==> endDatetime == Some(Combine(eventDate.value, EndOfDay))
      ensures eventDate.None? || old(startDatetime).Some? ==> startDatetime == old(startDatetime)
      ensures eventDate.None? || old(endDatetime).Some? ==> endDatetime == old(endDatetime)
    {
      if eventDate.Some? {
        if startDatetime.None? {
          startDatetime := Some(Combine(eventDate.value, 0));
        }
        if endDatetime.None? {
          endDatetime := Some(Combine(eventDate.value, EndOfDay));
        }
      }
    }

    predicate IsPast(now: int)
      reads this
    {
      if endDatetime.Some? then now > endDatetime.value
      else if eventDate.Some? then eventDate.value < DateOf(now)
      else false
    }

    predicate IsOngoing(now: int)
      reads this
    {
      if IsPast(now) then false
      else if startDatetime.Some? && endDatetime.Some? then startDatetime.value <= now <= endDatetime.value
      else if eventDate.Some? then
        if eventDate.value == DateOf(now) then (if endDatetime.Some? then now <= endDatetime.value else true)
        else false
      else false
    }

    function WindowStart(): Option<int>
      reads this
    {
      if attendanceWindowStart.Some? then attendanceWindowStart
      else if eventDate.Some? then Some(Combine(eventDate.value, 0))
      else startDatetime
    }

    function WindowEnd(): Option<int>
      reads this
    {
      if attendanceWindowEnd.Some? then attendanceWindowEnd
      else if eventDate.Some? then Some(Combine(eventDate.value, EndOfDay))
      else endDatetime
    }

    /** `is_within_attendance_window`. The lenient branch's bounds of twelve
        hours before and a day after are written in seconds. */
    predicate IsWithinAttendanceWindow(now: int)
      reads this
    {
      var ws, we := WindowStart(), WindowEnd();
      if ws.None? || we.None? then true
      else if IsOngoing(now) && eventDate.Some?
              && (eventDate.value == DateOf(now) || (eventDate.value == DateOf(now) + 1 && HourOf(now) >= 12))
              && (-12 * SecondsPerHour <= ws.value - now <= 24 * SecondsPerHour
                  || -12 * SecondsPerHour <= now - we.value <= 24 * SecondsPerHour)
      then true
      else ws.value <= now <= we.value
    }

    predicate CanScanAttendance(now: int)
      reads this
    {
      if !HasAnyAttendanceEnabled() then false
      else if IsOngoing(now) then true
      else IsWithinAttendanceWindow(now)
    }

    /** The day the per-type times are placed on. */
    function ScanDate(now: int): int
      reads this
    {
      if eventDate.Some? then eventDate.value
      else if startDatetime.Some? then DateOf(startDatetime.value)
      else DateOf(now)
    }

    /** `can_scan_morning_in` and its three copies, one per scan type. */
    predicate CanScan(t: ScanType, now: int)
      reads this
    {
      var slot := Slot(t);
      if !slot.enabled then false
      else if !IsOngoing(now) then false
      else
        var d := ScanDate(now);
        if slot.start.Some? && slot.end.Some? then Combine(d, slot.start.value) <= now <= Combine(d, slot.end.value)
        else if slot.start.Some? then Combine(d, slot.start.value) <= now <= Combine(d, slot.start.value) + SecondsPerHour
        else true
    }

    /** `get_morning_in_time_window` and its three copies. */
    function TimeWindow(t: ScanType): Option<string>
    {
      var slot := Slot(t);
      if !slot.enabled then None
      else if slot.start.Some? && slot.end.Some? then Some(Format12(slot.start.value) + " - " + Format12(slot.end.value))
      else if slot.start.Some? then
        Some(Format12(slot.start.value) + " - " + Format12((slot.start.value + SecondsPerHour) % SecondsPerDay))
      else Some("Event start time + 1 hour")
    }
  }

  /** Once an event is past it stays past. */
  lemma IsPastMonotone(e: Event, now: int, later: int)
    requires now <= later && e.IsPast(now)
    ensures e.IsPast(later)
  {
    if e.endDatetime.None? && e.eventDate.Some? {
      assert DateOf(now) <= DateOf(later);
    }
  }

  /** An ongoing event is not past, and with both datetimes set it is
      ongoing exactly between them. */
  lemma OngoingBetweenDatetimes(e: Event, now: int)
    ensures e.IsOngoing(now) ==> !e.IsPast(now)
    ensures e.startDatetime.Some? && e.endDatetime.Some?
            ==> (e.IsOngoing(now) <==> e.startDatetime.value <= now <= e.endDatetime.value)
  {
  }

  /** A saved dated event with the default datetimes is ongoing exactly on
      its date and past exactly after it. */
  lemma SavedDayEvent(e: Event, d: int, now: int)
    requires e.eventDate == Some(d)
    requires e.startDatetime == Some(Combine(d, 0)) && e.endDatetime == Some(Combine(d, EndOfDay))
    ensures e.IsPast(now) <==> DateOf(now) > d
    ensures e.IsOngoing(now) <==> DateOf(now) == d
  {
    DayBounds(d, now);
  }

  lemma DayBounds(d: int, now: int)
    ensures now > Combine(d, EndOfDay) <==> DateOf(now) > d
    ensures Combine(d, 0) <= now <= Combine(d, EndOfDay) <==> DateOf(now) == d
  {
    var q, r := now / SecondsPerDay, now % SecondsPerDay;
    assert now == q * SecondsPerDay + r;
    if q > d {
      assert q * SecondsPerDay >= (d + 1) * SecondsPerDay;
    } else if q < d {
      assert q * SecondsPerDay + SecondsPerDay <= d * SecondsPerDay;
    }
  }

  /** Without an explicit window a dated event's window is its whole day, and
      while the event is not ongoing a scan is allowed exactly on that day. */
  lemma DefaultWindowIsEventDay(e: Event, d: int, now: int)
    requires e.attendanceWindowStart.None? && e.attendanceWindowEnd.None? && e.eventDate == Some(d)
    ensures e.WindowStart() == Some(Combine(d, 0)) && e.WindowEnd() == Some(Combine(d, EndOfDay))
    ensures !e.IsOngoing(now) ==> (e.IsWithinAttendanceWindow(now) <==> DateOf(now) == d)
  {
    DayBounds(d, now);
  }

  /** `can_scan_attendance`: never with nothing enabled, always while ongoing,
      otherwise the attendance window decides, which is open when a bound is missing. */
  lemma CanScanAttendanceCases(e: Event, now: int)
    ensures !e.HasAnyAttendanceEnabled() ==> !e.CanScanAttendance(now)
    ensures e.HasAnyAttendanceEnabled() && e.IsOngoing(now) ==> e.CanScanAttendance(now)
    ensures e.HasAnyAttendanceEnabled() && !e.IsOngoing(now)
            ==> (e.CanScanAttendance(now) <==> e.IsWithinAttendanceWindow(now))
    ensures e.WindowStart().None? || e.WindowEnd().None? ==> e.IsWithinAttendanceWindow(now)
    ensures e.WindowStart().Some? && e.WindowEnd().Some? && e.WindowStart().value <= now <= e.WindowEnd().value
            ==> e.IsWithinAttendanceWindow(now)
  {
  }

  /** `can_scan_<type>`: closed when disabled or when the event is not
      ongoing; an explicit pair of times bounds it on both sides; a start time
      alone opens it for one hour; no times leave it open. */
  lemma CanScanCases(e: Event, t: ScanType, now: int)
    ensures !e.Enabled(t) || !e.IsOngoing(now) ==> !e.CanScan(t, now)
    ensures e.Enabled(t) && e.IsOngoing(now) && e.Slot(t).start.Some? && e.Slot(t).end.Some?
            ==> (e.CanScan(t, now) <==> e.ScanDate(now) * SecondsPerDay + e.Slot(t).start.value <= now
                                         <= e.ScanDate(now) * SecondsPerDay + e.Slot(t).end.value)
    ensures e.Enabled(t) && e.IsOngoing(now) && e.Slot(t).start.Some? && e.Slot(t).end.None?
            ==> (e.CanScan(t, now) <==> e.ScanDate(now) * SecondsPerDay + e.Slot(t).start.value <= now
                                         <= e.ScanDate(now) * SecondsPerDay + e.Slot(t).start.value + 3600)
    ensures e.Enabled(t) && e.IsOngoing(now) && e.Slot(t).start.None? ==> e.CanScan(t, now)
  {
  }

  /** A type that can be scanned implies that scanning is open at all. */
  lemma CanScanImpliesCanScanAttendance(e: Event, t: ScanType, now: int)
    requires e.CanScan(t, now)
    ensures e.Enabled(t) && e.IsOngoing(now) && e.CanScanAttendance(now)
  {
  }

  /** The awards of all enabled types together never exceed the event's points,
      and fall short of them by less than one award's worth of division. */
  lemma AwardsWithinPoints(e: Event)
    ensures e.EnabledCount() * PointsPerScan(e.GetPoints(), e.EnabledCount()) <= e.GetPoints()
    ensures |e.EnabledTypes()| * PointsPerScan(e.GetPoints(), e.EnabledCount()) <= e.GetPoints()
    ensures e.HasAnyAttendanceEnabled() <==> e.EnabledCount() > 0
  {
  }

  // ---------------------------------------------------------------------
  // Registrations.
  // ---------------------------------------------------------------------

  datatype RegStatus = PreRegistered | Confirmed | Attended | Cancelled | NoShow

  class Registration {
    const event: int
    const user: int
    var status: RegStatus
    var isMandatory: bool
    var checkedInAt: Option<int>

    constructor(event: int, user: int, status: RegStatus, isMandatory: bool)
      ensures this.event == event && this.user == user && this.status == status && this.isMandatory == isMandatory
      ensures checkedInAt == None
    {
      this.event := event;
      this.user := user;
      this.status := status;
      this.isMandatory := isMandatory;
      checkedInAt := None;
    }

    /** `mark_attended`: the registration becomes ATTENDED at `now`, and a
        nonzero award is credited to the user's profile when there is one
        (`profile == null` stands for a user without a profile). */
    method MarkAttended(now: int, awardPoints: int, reason: string, profile: UserProfile?)
      modifies this, profile
      ensures status == Attended && checkedInAt == Some(now)
      ensures isMandatory == old(isMandatory)
      ensures profile != null && awardPoints != 0 ==> profile.totalPoints == old(profile.totalPoints) + awardPoints
      ensures profile != null && awardPoints != 0
              ==> profile.transactions == old(profile.transactions) + [PointsTransaction(awardPoints, reason, Some(event), profile.totalPoints)]
      ensures profile != null && awardPoints == 0
              ==> profile.totalPoints == old(profile.totalPoints) && profile.transactions == old(profile.transactions)
    {
      status := Attended;
      checkedInAt := Some(now);
      if awardPoints != 0 && profile != null {
        profile.AddPoints(awardPoints, reason, Some(event));
      }
    }
  }

  // ---------------------------------------------------------------------
  // QR codes.
  // ---------------------------------------------------------------------

  class QRCode {
    const user: int
    const token: string
    const isActive: bool
    var organization: Option<int>
    var lastUsedAt: Option<int>

    constructor(user: int, token: string, isActive: bool, organization: Option<int>)
      ensures this.user == user && this.token == token && this.isActive == isActive
      ensures this.organization == organization && lastUsedAt == None
    {
      this.user := user;
      this.token := token;
      this.isActive := isActive;
      this.organization := organization;
      lastUsedAt := None;
    }
  }

  // ---------------------------------------------------------------------
  // Attendance records.
  // ---------------------------------------------------------------------

  /** The unique key of an attendance record: event, user and type. The type
      is a string because an approved excuse can store "ALL". */
  datatype RecordKey = RecordKey(event: int, user: int, kind: string)

  datatype AttendanceRecord = AttendanceRecord(organizer: Option<int>, pointsAwarded: nat, notes: string)

  /** The scan types with a record for the user at the event. */
  function RecordedTypes(records: map<RecordKey, AttendanceRecord>, event: int, user: int): set<ScanType>
  {
    set t | t in ScanOrder && RecordKey(event, user, Code(t)) in records
  }

  /** Storing one more record adds its type to the recorded types of its own
      event and user, and only there; a record whose type is no scan code
      (an approval's "ALL") adds no type at all. */
  lemma RecordedAfterInsert(records: map<RecordKey, AttendanceRecord>, key: RecordKey, rec: AttendanceRecord,
                            event: int, user: int)
    ensures RecordedTypes(records[key := rec], event, user)
            == RecordedTypes(records, event, user)
               + (if key.event == event && key.user == user && FromCode(key.kind).Some? then {FromCode(key.kind).value} else {})
  {
    var added := if key.event == event && key.user == user && FromCode(key.kind).Some? then {FromCode(key.kind).value} else {};
    forall t: ScanType
      ensures t in RecordedTypes(records[key := rec], event, user) <==> t in RecordedTypes(records, event, user) + added
    {
      assert t in ScanOrder by { assert ScanOrder[Rank(t)] == t; }
      assert RecordKey(event, user, Code(t)) == key <==> key.event == event && key.user == user && FromCode(key.kind) == Some(t);
    }
  }

  /** The attendance table. Keying a map by (event, user, type) is the
      uniqueness constraint on those three columns. */
  class AttendanceLedger {
    var records: map<RecordKey, AttendanceRecord>

    constructor()
      ensures records == map[]
    {
      records := map[];
    }

    /** The scan types the user already has at the event: the answers of
        the four `has_*` queries. */
    function Recorded(event: int, user: int): (r: set<ScanType>)
      reads this
      ensures forall t :: t in r <==> RecordKey(event, user, Code(t)) in records
    {
      RecordedTypes(records, event, user)
    }

    /** `objects.create` under the unique constraint: an existing key is an
        integrity error and leaves the table as it was. */
    method Create(key: RecordKey, rec: AttendanceRecord) returns (ok: bool)
      modifies this
      ensures ok <==> key !in old(records)
      ensures ok ==> records == old(records)[key := rec]
      ensures !ok ==> records == old(records)
    {
      if key in records {
        return false;
      }
      records := records[key := rec];
      return true;
    }
  }

  /** A type is the next scan when it is enabled, not yet recorded and open now. */
  predicate Eligible(e: Event, recorded: set<ScanType>, now: int, t: ScanType)
    reads e
  {
    e.Enabled(t) && t !in recorded && e.CanScan(t, now)
  }

  /** `get_attendance_type`: the first eligible type in the fixed order. */
  function GetAttendanceType(e: Event, recorded: set<ScanType>, now: int): (r: Option<ScanType>)
    reads e
    ensures r.Some? ==> Eligible(e, recorded, now, r.value) && r.value !in recorded
    ensures r.Some? ==> forall u :: Rank(u) < Rank(r.value) ==> !Eligible(e, recorded, now, u)
    ensures r.None? ==> forall u :: !Eligible(e, recorded, now, u)
  {
    if e.morningIn.enabled && MorningIn !in recorded && e.CanScan(MorningIn, now) then Some(MorningIn)
    else if e.morningOut.enabled && MorningOut !in recorded && e.CanScan(MorningOut, now) then Some(MorningOut)
    else if e.afternoonIn.enabled && AfternoonIn !in recorded && e.CanScan(AfternoonIn, now) then Some(AfternoonIn)
    else if e.afternoonOut.enabled && AfternoonOut !in recorded && e.CanScan(AfternoonOut, now) then Some(AfternoonOut)
    else None
  }

  /** `is_fully_attended`: every enabled type has a record. */
  function IsFullyAttended(e: Event, recorded: set<ScanType>): (r: bool)
    ensures r <==> forall t :: e.Enabled(t) ==> t in recorded
  {
    if e.morningIn.enabled && MorningIn !in recorded then false
    else if e.morningOut.enabled && MorningOut !in recorded then false
    else if e.afternoonIn.enabled && AfternoonIn !in recorded then false
    else if e.afternoonOut.enabled && AfternoonOut !in recorded then false
    else true
  }

  /** A fully attended user has no next scan, and an event with nothing
      enabled is fully attended by everyone. */
  lemma FullyAttendedHasNoNextScan(e: Event, recorded: set<ScanType>, now: int)
    ensures IsFullyAttended(e, recorded) ==> GetAttendanceType(e, recorded, now).None?
    ensures !e.HasAnyAttendanceEnabled() ==> IsFullyAttended(e, recorded)
  {
  }

  /** Recording the next scan moves the choice strictly forward in the fixed order. */
  lemma NextScanAdvances(e: Event, recorded: set<ScanType>, now: int)
    requires GetAttendanceType(e, recorded, now).Some?
    ensures var t := GetAttendanceType(e, recorded, now).value;
            var next := GetAttendanceType(e, recorded + {t}, now);
            next.None? || Rank(t) < Rank(next.value)
  {
    var t := GetAttendanceType(e, recorded, now).value;
    var next := GetAttendanceType(e, recorded + {t}, now);
    if next.Some? {
      assert Eligible(e, recorded, now, next.value);
    }
  }

  // ---------------------------------------------------------------------
  // Excuses.
  // ---------------------------------------------------------------------

  datatype ExcuseStatus = Pending | Approved | Rejected

  class Excuse {
    const id: int
    const event: int
    const user: int
    /** One of the four scan codes or "ALL". */
    const attendanceType: string
    const reason: string
    var status: ExcuseStatus
    var reviewedBy: Option<int>
    var reviewedAt: Option<int>
    var reviewNotes: string

    constructor(id: int, event: int, user: int, attendanceType: string, reason: string)
      ensures this.id == id && this.event == event && this.user == user
      ensures this.attendanceType == attendanceType && this.reason == reason
      ensures status == Pending && reviewedBy == None && reviewedAt == None && reviewNotes == ""
    {
      this.id := id;
      this.event := event;
      this.user := user;
      this.attendanceType := attendanceType;
      this.reason := reason;
      status := Pending;
      reviewedBy := None;
      reviewedAt := None;
      reviewNotes := "";
    }

    /** `applies_to_attendance_type`, with the marker as the source compares it. */
    predicate AppliesTo(kind: string)
    {
      attendanceType == AllMarker || attendanceType == kind
    }

    /** The wildcard the source's comments describe: "ALL" covers every type. */
    predicate AppliesToIntended(kind: string)
    {
      attendanceType == AllCode || attendanceType == kind
    }

    /** `get_attendance_type_label`. A choice member is a string, so the
        branches compare with the first character of a choice value and return
        its second character; any other value gets the choice label, else
        the raw value. */
    function AttendanceTypeLabel(): string
    {
      if attendanceType == [Code(MorningIn)[0]] then [Code(MorningIn)[1]]
      else if attendanceType == [Code(MorningOut)[0]] then [Code(MorningOut)[1]]
      else if attendanceType == [Code(AfternoonIn)[0]] then [Code(AfternoonIn)[1]]
      else if attendanceType == [Code(AfternoonOut)[0]] then [Code(AfternoonOut)[1]]
      else if attendanceType == AllMarker then [AllCode[1]]
      else ChoiceLabel(attendanceType)
    }
  }

  /** `get_attendance_type_display() or value`: the label of a choice, else the value. */
  function ChoiceLabel(kind: string): string
  {
    match FromCode(kind)
    case Some(t) => Label(t)
    case None => if kind == AllCode then AllLabel else kind
  }

  /** Read literally, the marker "A" is never a stored scope, so an "ALL"
      excuse applies to no scan type; the intended wildcard differs from the
      literal rule exactly there. */
  lemma AllScopeIsNotAWildcard(ex: Excuse, t: ScanType)
    ensures ex.attendanceType == AllCode ==> !ex.AppliesTo(Code(t)) && ex.AppliesToIntended(Code(t))
    ensures ex.attendanceType != AllMarker && ex.attendanceType != AllCode
            ==> (ex.AppliesTo(Code(t)) <==> ex.AppliesToIntended(Code(t)))
    ensures ex.AppliesTo(Code(t)) <==> ex.attendanceType == AllMarker || ex.attendanceType == Code(t)
  {
  }

  /** For each of the five choice values the first-character comparisons
      never fire and the label is the choice label. */
  lemma ExcuseLabelIsChoiceLabel(ex: Excuse)
    requires FromCode(ex.attendanceType).Some? || ex.attendanceType == AllCode
    ensures ex.AttendanceTypeLabel() == ChoiceLabel(ex.attendanceType)
    ensures FromCode(ex.attendanceType).Some? ==> ex.AttendanceTypeLabel() == Label(FromCode(ex.attendanceType).value)
  {
    assert |ex.attendanceType| > 1;
  }

  /** A stored "M" or "A" does match a first character and is labelled with a
      single letter: "M" with the "O" of MORNING_IN, "A" with the "F" of
      AFTERNOON_IN, which comes before the ALL branch. Every other value gets
      the choice label. */
  lemma ExcuseLabelFirstCharacters(ex: Excuse)
    ensures ex.attendanceType == "M" ==> ex.AttendanceTypeLabel() == "O"
    ensures ex.attendanceType == "A" ==> ex.AttendanceTypeLabel() == "F"
    ensures ex.attendanceType != "M" && ex.attendanceType != "A"
            ==> ex.AttendanceTypeLabel() == ChoiceLabel(ex.attendanceType)
  {
    assert [Code(MorningIn)[0]] == [Code(MorningOut)[0]] == "M";
    assert [Code(AfternoonIn)[0]] == [Code(AfternoonOut)[0]] == AllMarker == "A";
  }

  // ---------------------------------------------------------------------
  // Auto-registration of organization members.
  // ---------------------------------------------------------------------

  /** What `auto_register_organization_members` leaves of an existing
      registration: a cancelled registration of a member becomes a mandatory
      pre-registration, every other one is left as it was. */
  predicate Reregistered(r: Registration, oldStatus: RegStatus, oldMandatory: bool, member: bool)
    reads r
  {
    if member && oldStatus == Cancelled then r.status == PreRegistered && r.isMandatory
    else r.status == oldStatus && r.isMandatory == oldMandatory
  }

  /** A registration the loop creates: a mandatory pre-registration. */
  predicate NewMandatory(r: Registration)
    reads r
  {
    r.status == PreRegistered && r.isMandatory
  }

  /** `auto_register_organization_members` for `e`. `regs` maps each user to
      their registration for `e`. `raised` stands for the `TypeError` of
      comparing a date deadline, or a missing start, with the current datetime. */
  method AutoRegisterOrganizationMembers(e: Event, now: int, members: seq<int>, regs: map<int, Registration>)
      returns (raised: bool, regsAfter: map<int, Registration>)
    requires forall u :: u in regs ==> regs[u].event == e.id && regs[u].user == u
    modifies regs.Values
    ensures raised <==> e.organization.Some? && e.IsMandatory()
                        && (e.registrationDeadline.Some? || e.startDatetime.None?)
    ensures forall u :: u in regsAfter ==> regsAfter[u].event == e.id && regsAfter[u].user == u
    ensures var runs := e.organization.Some? && e.IsMandatory() && e.registrationDeadline.None?
                        && e.startDatetime.Some? && e.startDatetime.value >= now;
            && regsAfter.Keys == regs.Keys + (if runs then set u | u in members else {})
            && (forall u :: u in regs ==> (regsAfter[u] == regs[u]
                                         && Reregistered(regs[u], old(regs[u].status), old(regs[u].isMandatory), runs && u in members)))
            && (forall u :: u in regsAfter && u !in regs ==> fresh(regsAfter[u]) && NewMandatory(regsAfter[u]))
  {
    regsAfter := regs;
    if e.organization.None? || !e.IsMandatory() {
      return false, regsAfter;
    }
    if e.registrationDeadline.Some? || e.startDatetime.None? {
      return true, regsAfter;
    }
    if e.startDatetime.value < now {
      return false, regsAfter;
    }
    raised := false;
    regsAfter := RegisterMembers(e, members, regs);
  }

  /** The loop over the organization's members. */
  method RegisterMembers(e: Event, members: seq<int>, regs: map<int, Registration>)
      returns (regsAfter: map<int, Registration>)
    requires forall u :: u in regs ==> regs[u].event == e.id && regs[u].user == u
    modifies regs.Values
    ensures regsAfter.Keys == regs.Keys + (set u | u in members)
    ensures forall u :: u in regsAfter ==> regsAfter[u].event == e.id && regsAfter[u].user == u
    ensures forall u :: u in regs ==> (regsAfter[u] == regs[u]
                                     && Reregistered(regs[u], old(regs[u].status), old(regs[u].isMandatory), u in members))
    ensures forall u :: u in regsAfter && u !in regs ==> fresh(regsAfter[u]) && NewMandatory(regsAfter[u])
  {
    regsAfter := regs;
    var i := 0;
    while i < |members|
      invariant 0 <= i <= |members|
      invariant regsAfter.Keys == regs.Keys + (set u | u in members[..i])
      invariant forall u :: u in regsAfter ==> regsAfter[u].event == e.id && regsAfter[u].user == u
      invariant forall u :: u in regs ==> (regsAfter[u] == regs[u]
                                         && Reregistered(regs[u], old(regs[u].status), old(regs[u].isMandatory), u in members[..i]))
      invariant forall u :: u in regsAfter && u !in regs ==> fresh(regsAfter[u]) && NewMandatory(regsAfter[u])
    {
      var u := members[i];
      if u !in regsAfter {
        var r := new Registration(e.id, u, PreRegistered, true);
        regsAfter := regsAfter[u := r];
      } else if regsAfter[u].status == Cancelled {
        var r := regsAfter[u];
        assert forall v :: v in regsAfter && v != u ==> regsAfter[v] != r;
        r.status := PreRegistered;
        r.isMandatory := true;
      }
      assert members[..i + 1] == members[..i] + [u];
      forall v | v in regs
        ensures Reregistered(regs[v], old(regs[v].status), old(regs[v].isMandatory), v in members[..i + 1])
      {
        assert v in members[..i + 1] <==> v in members[..i] || v == u;
      }
      i := i + 1;
    }
    assert members[..i] == members;
  }
}
