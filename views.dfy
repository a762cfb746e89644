/** The page views built on the attendance engine: who may see an event or
    an announcement, the leaderboard's ranks, the mandatory-attendance
    summary of one member, and the excuse workflow (a student's request and
    an organizer's review, which synthesises attendance records and points). */
module Views {
  import opened Common
  import opened Models

  // ---------------------------------------------------------------------
  // Visibility.
  // ---------------------------------------------------------------------

  /** `profile` is the role of the user's profile, `None` without one;
      `organizations` are the active organizations the user is a member of
      (`get_user_organizations`). */
  datatype Viewer = Viewer(isSuperuser: bool, profile: Option<Role>, organizations: set<int>)

  /** `hasattr(user, 'profile') and user.profile.is_admin()`. */
  predicate IsAdminViewer(v: Viewer)
  {
    v.profile.Some? && IsAdminProfile(v.isSuperuser, v.profile.value)
  }

  /** `can_user_view_event`. */
  function CanUserViewEvent(v: Viewer, e: Event): bool
  {
    if v.isSuperuser then true
    else if e.organization.None? then e.isPublic || IsAdminViewer(v)
    else if e.organization.value in v.organizations then true
    else IsAdminViewer(v)
  }

  /** `can_user_view_announcement`; `organization` is the announcement's. */
  function CanUserViewAnnouncement(v: Viewer, organization: Option<int>): bool
  {
    if v.isSuperuser then true
    else if organization.None? then true
    else if organization.value in v.organizations then true
    else IsAdminViewer(v)
  }

  /** The visibility rules, each as an if-and-only-if. */
  lemma EventVisibility(v: Viewer, e: Event)
    ensures v.isSuperuser ==> CanUserViewEvent(v, e)
    ensures !v.isSuperuser && e.organization.None?
            ==> (CanUserViewEvent(v, e) <==> e.isPublic || (v.profile == Some(Admin)))
    ensures !v.isSuperuser && e.organization.Some?
            ==> (CanUserViewEvent(v, e) <==> e.organization.value in v.organizations || v.profile == Some(Admin))
  {
  }

  /** Whoever may see an event may see an announcement of the same scope,
      and a global announcement is visible to everyone. */
  lemma AnnouncementAtLeastEvent(v: Viewer, e: Event)
    ensures CanUserViewEvent(v, e) ==> CanUserViewAnnouncement(v, e.organization)
    ensures CanUserViewAnnouncement(v, None)
    ensures e.organization.Some? ==> (CanUserViewEvent(v, e) <==> CanUserViewAnnouncement(v, e.organization))
  {
  }

  // ---------------------------------------------------------------------
  // Leaderboard ranks.
  // ---------------------------------------------------------------------

  /** One leaderboard row in display order: the profile and the points it is
      ranked by (the organization's points when scoped, else the total). */
  datatype Standing = Standing(profileId: int, points: int)

  /** The rank the loop gives row `i`: 1 for the first row, the previous
      rank on equal points, and `i + 1` when the points change. */
  function RankAt(rows: seq<Standing>, i: nat): nat
    requires i < |rows|
  {
    if i == 0 then 1
    else if rows[i - 1].points != rows[i].points then i + 1
    else RankAt(rows, i - 1)
  }

  /** The rows' profiles are distinct, as primary keys are. */
  predicate DistinctProfiles(rows: seq<Standing>)
  {
    forall i, j :: 0 <= i < j < |rows| ==> rows[i].profileId != rows[j].profileId
  }

  /** The rank map after the first `n` rows: each row's profile mapped to its rank. */
  function RankMapOf(rows: seq<Standing>, n: nat): map<int, nat>
    requires n <= |rows|
  {
    if n == 0 then map[] else RankMapOf(rows, n - 1)[rows[n - 1].profileId := RankAt(rows, n - 1)]
  }

  /** The ranking loop of `LeaderboardView.get_context_data`: `rank_map`
      from profile to rank. */
  method ComputeRanks(rows: seq<Standing>) returns (rankMap: map<int, nat>)
    ensures rankMap == RankMapOf(rows, |rows|)
  {
    rankMap := map[];
    var currentRank := 1;
    var idx := 0;
    while idx < |rows|
      invariant 0 <= idx <= |rows|
      invariant currentRank == if idx == 0 then 1 else RankAt(rows, idx - 1)
      invariant rankMap == RankMapOf(rows, idx)
    {
      if idx > 0 && rows[idx - 1].points != rows[idx].points {
        currentRank := idx + 1;
      }
      rankMap := rankMap[rows[idx].profileId := currentRank];
      idx := idx + 1;
    }
  }

  /** With distinct profiles each row's profile is mapped to the rank of its row. */
  lemma {:induction false} RankMapAt(rows: seq<Standing>, n: nat, i: nat)
    requires DistinctProfiles(rows) && i < n <= |rows|
    ensures rows[i].profileId in RankMapOf(rows, n) && RankMapOf(rows, n)[rows[i].profileId] == RankAt(rows, i)
  {
    if i < n - 1 {
      RankMapAt(rows, n - 1, i);
    }
  }

  /** The map holds the rows' profiles and nothing else. */
  lemma {:induction false} RankMapKeys(rows: seq<Standing>, n: nat)
    requires n <= |rows|
    ensures RankMapOf(rows, n).Keys == set i | 0 <= i < n :: rows[i].profileId
  {
    if n > 0 {
      RankMapKeys(rows, n - 1);
      assert (set i | 0 <= i < n :: rows[i].profileId)
             == (set i | 0 <= i < n - 1 :: rows[i].profileId) + {rows[n - 1].profileId};
    }
  }

  /** `rank_map.get(profile.id, 1)`, the rank shown on the page. */
  function ShownRank(rankMap: map<int, nat>, profileId: int): nat
  {
    if profileId in rankMap then rankMap[profileId] else 1
  }

  /** Every rank is between 1 and the row's position. */
  lemma {:induction false} RankBounds(rows: seq<Standing>, i: nat)
    requires i < |rows|
    ensures 1 <= RankAt(rows, i) <= i + 1
  {
    if i > 0 && rows[i - 1].points == rows[i].points {
      RankBounds(rows, i - 1);
    }
  }

  /** Equal neighbours share a rank; a change of points starts a new rank at the position. */
  lemma RankSteps(rows: seq<Standing>, i: nat)
    requires 0 < i < |rows|
    ensures rows[i - 1].points == rows[i].points ==> RankAt(rows, i) == RankAt(rows, i - 1)
    ensures rows[i - 1].points != rows[i].points ==> RankAt(rows, i) == i + 1
  {
  }

  /** Ranks never go down the board. */
  lemma {:induction false} RanksNondecreasing(rows: seq<Standing>, i: nat, j: nat)
    requires i <= j < |rows|
    ensures RankAt(rows, i) <= RankAt(rows, j)
    decreases j
  {
    if i < j {
      RanksNondecreasing(rows, i, j - 1);
      if rows[j - 1].points != rows[j].points {
        RankBounds(rows, j - 1);
      }
    }
  }

  /** The number of rows before `n` with more points than `p`. */
  function CountAbove(rows: seq<Standing>, n: nat, p: int): nat
    requires n <= |rows|
  {
    if n == 0 then 0 else CountAbove(rows, n - 1, p) + (if rows[n - 1].points > p then 1 else 0)
  }

  predicate SortedByPoints(rows: seq<Standing>)
  {
    forall i, j :: 0 <= i < j < |rows| ==> rows[i].points >= rows[j].points
  }

  lemma {:induction false} CountAboveAll(rows: seq<Standing>, n: nat, p: int)
    requires n <= |rows|
    requires forall k :: 0 <= k < n ==> rows[k].points > p
    ensures CountAbove(rows, n, p) == n
  {
    if n > 0 {
      CountAboveAll(rows, n - 1, p);
    }
  }

  /** On a board sorted by points the loop computes standard competition
      ranking: one more than the number of rows with strictly more points. */
  lemma {:induction false} CompetitionRanking(rows: seq<Standing>, i: nat)
    requires SortedByPoints(rows) && i < |rows|
    ensures RankAt(rows, i) == 1 + CountAbove(rows, i, rows[i].points)
    decreases i
  {
    if i > 0 {
      if rows[i - 1].points != rows[i].points {
        CountAboveAll(rows, i, rows[i].points);
      } else {
        CompetitionRanking(rows, i - 1);
      }
    }
  }

  // ---------------------------------------------------------------------
  // The mandatory-attendance summary of one member.
  // ---------------------------------------------------------------------

  /** `get_excuse_status` for one event: the status of the first of the
      member's excuses (in query order) that belongs to the event, applies
      to `kind` and is approved or pending. */
  function ExcuseStatusFor(excuses: seq<Excuse>, event: int, kind: string): Option<ExcuseStatus>
    reads excuses
  {
    if excuses == [] then None
    else if excuses[0].event == event && excuses[0].AppliesTo(kind) && excuses[0].status != Rejected
    then Some(excuses[0].status)
    else ExcuseStatusFor(excuses[1..], event, kind)
  }

  /** The status reported belongs to an applicable excuse that is not
      rejected; none is reported only when every applicable excuse was rejected. */
  lemma {:induction false} ExcuseStatusMeaning(excuses: seq<Excuse>, event: int, kind: string)
    ensures var r := ExcuseStatusFor(excuses, event, kind);
      && (r.Some? ==> r.value != Rejected
                      && exists i :: 0 <= i < |excuses| && excuses[i].event == event
                                    && excuses[i].AppliesTo(kind) && excuses[i].status == r.value)
      && (r.None? ==> forall i :: 0 <= i < |excuses| && excuses[i].event == event && excuses[i].AppliesTo(kind)
                                  ==> excuses[i].status == Rejected)
  {
    if excuses != [] && !(excuses[0].event == event && excuses[0].AppliesTo(kind) && excuses[0].status != Rejected) {
      ExcuseStatusMeaning(excuses[1..], event, kind);
      assert forall i :: 1 <= i < |excuses| ==> excuses[i] == excuses[1..][i - 1];
    }
  }

  /** The search loop of `get_excuse_status`. */
  method GetExcuseStatus(excuses: seq<Excuse>, event: int, kind: string) returns (r: Option<ExcuseStatus>)
    ensures r == ExcuseStatusFor(excuses, event, kind)
  {
    var i := 0;
    while i < |excuses|
      invariant 0 <= i <= |excuses|
      invariant ExcuseStatusFor(excuses[i..], event, kind) == ExcuseStatusFor(excuses, event, kind)
    {
      var ex := excuses[i];
      assert excuses[i..][1..] == excuses[i + 1..];
      if ex.event == event && ex.AppliesTo(kind) {
        if ex.status == Approved {
          return Some(Approved);
        } else if ex.status == Pending {
          return Some(Pending);
        }
      }
      i := i + 1;
    }
    return None;
  }

  /** `kind in present_types`: the member has a record of that (non-empty) type at the event. */
  predicate Present(records: map<RecordKey, AttendanceRecord>, event: int, user: int, kind: string)
  {
    kind != "" && RecordKey(event, user, kind) in records
  }

  /** `has_<type>_completed`: scanned, or excused by an approved excuse. */
  predicate TypeCompleted(e: Event, records: map<RecordKey, AttendanceRecord>, user: int, excuses: seq<Excuse>, t: ScanType)
    reads excuses
  {
    Present(records, e.id, user, Code(t)) || ExcuseStatusFor(excuses, e.id, Code(t)) == Some(Approved)
  }

  /** The number of types among `ts` that are enabled and completed. */
  function CompletedIn(e: Event, records: map<RecordKey, AttendanceRecord>, user: int, excuses: seq<Excuse>,
                       ts: seq<ScanType>): nat
    reads excuses
  {
    if ts == [] then 0
    else Counted(e, records, user, excuses, ts[0]) + CompletedIn(e, records, user, excuses, ts[1..])
  }

  /** The number of types among `ts` that are enabled. */
  function EnabledIn(e: Event, ts: seq<ScanType>): nat
  {
    if ts == [] then 0 else (if e.Enabled(ts[0]) then 1 else 0) + EnabledIn(e, ts[1..])
  }

  lemma EnabledInScanOrder(e: Event)
    ensures EnabledIn(e, ScanOrder) == e.EnabledCount()
  {
    assert ScanOrder[1..] == [MorningOut, AfternoonIn, AfternoonOut];
    assert ScanOrder[1..][1..] == [AfternoonIn, AfternoonOut];
    assert ScanOrder[1..][1..][1..] == [AfternoonOut];
    assert EnabledIn(e, [AfternoonOut]) == if e.afternoonOut.enabled then 1 else 0;
    assert EnabledIn(e, [AfternoonIn, AfternoonOut]) == (if e.afternoonIn.enabled then 1 else 0) + EnabledIn(e, [AfternoonOut]);
    assert EnabledIn(e, [MorningOut, AfternoonIn, AfternoonOut])
        == (if e.morningOut.enabled then 1 else 0) + EnabledIn(e, [AfternoonIn, AfternoonOut]);
  }

  lemma {:induction false} CompletedWithinEnabled(e: Event, records: map<RecordKey, AttendanceRecord>, user: int,
                                                  excuses: seq<Excuse>, ts: seq<ScanType>)
    ensures CompletedIn(e, records, user, excuses, ts) <= EnabledIn(e, ts)
  {
    if ts != [] {
      CompletedWithinEnabled(e, records, user, excuses, ts[1..]);
    }
  }

  /** An event's completed types never outnumber its enabled types. */
  lemma CompletedAtMostPossible(e: Event, records: map<RecordKey, AttendanceRecord>, user: int, excuses: seq<Excuse>)
    ensures CompletedIn(e, records, user, excuses, ScanOrder) <= e.EnabledCount()
  {
    CompletedWithinEnabled(e, records, user, excuses, ScanOrder);
    EnabledInScanOrder(e);
  }

  /** `completed_count` of one event: the four flag checks. */
  method EventCompleted(e: Event, records: map<RecordKey, AttendanceRecord>, user: int, excuses: seq<Excuse>)
      returns (count: nat)
    ensures count == CompletedIn(e, records, user, excuses, ScanOrder)
  {
    var morningIn := GetExcuseStatus(excuses, e.id, Code(MorningIn));
    var morningOut := GetExcuseStatus(excuses, e.id, Code(MorningOut));
    var afternoonIn := GetExcuseStatus(excuses, e.id, Code(AfternoonIn));
    var afternoonOut := GetExcuseStatus(excuses, e.id, Code(AfternoonOut));
    count := 0;
    if e.morningIn.enabled && (Present(records, e.id, user, Code(MorningIn)) || morningIn == Some(Approved)) {
      count := count + 1;
    }
    CountedByStatus(e, records, user, excuses, MorningIn, morningIn);
    ghost var sum := Counted(e, records, user, excuses, MorningIn);
    assert count == sum;
    if e.morningOut.enabled && (Present(records, e.id, user, Code(MorningOut)) || morningOut == Some(Approved)) {
      count := count + 1;
    }
    CountedByStatus(e, records, user, excuses, MorningOut, morningOut);
    sum := sum + Counted(e, records, user, excuses, MorningOut);
    assert count == sum;
    if e.afternoonIn.enabled && (Present(records, e.id, user, Code(AfternoonIn)) || afternoonIn == Some(Approved)) {
      count := count + 1;
    }
    CountedByStatus(e, records, user, excuses, AfternoonIn, afternoonIn);
    sum := sum + Counted(e, records, user, excuses, AfternoonIn);
    assert count == sum;
    if e.afternoonOut.enabled && (Present(records, e.id, user, Code(AfternoonOut)) || afternoonOut == Some(Approved)) {
      count := count + 1;
    }
    CountedByStatus(e, records, user, excuses, AfternoonOut, afternoonOut);
    sum := sum + Counted(e, records, user, excuses, AfternoonOut);
    assert count == sum;
    CompletedInScanOrder(e, records, user, excuses);
  }

  /** A type's contribution, read off the status `get_excuse_status` returned for it. */
  lemma CountedByStatus(e: Event, records: map<RecordKey, AttendanceRecord>, user: int, excuses: seq<Excuse>, t: ScanType,
                        status: Option<ExcuseStatus>)
    requires status == ExcuseStatusFor(excuses, e.id, Code(t))
    ensures Counted(e, records, user, excuses, t)
            == if e.Slot(t).enabled && (Present(records, e.id, user, Code(t)) || status == Some(Approved)) then 1 else 0
  {
  }

  /** One type's contribution to `completed_count`. */
  function Counted(e: Event, records: map<RecordKey, AttendanceRecord>, user: int, excuses: seq<Excuse>, t: ScanType): nat
    reads excuses
  {
    if e.Enabled(t) && TypeCompleted(e, records, user, excuses, t) then 1 else 0
  }

  /** `CompletedIn` over the fixed order, type by type. */
  lemma CompletedInScanOrder(e: Event, records: map<RecordKey, AttendanceRecord>, user: int, excuses: seq<Excuse>)
    ensures CompletedIn(e, records, user, excuses, ScanOrder)
         == Counted(e, records, user, excuses, MorningIn) + Counted(e, records, user, excuses, MorningOut)
          + Counted(e, records, user, excuses, AfternoonIn) + Counted(e, records, user, excuses, AfternoonOut)
  {
    assert ScanOrder[1..] == [MorningOut, AfternoonIn, AfternoonOut];
    assert ScanOrder[1..][1..] == [AfternoonIn, AfternoonOut];
    assert ScanOrder[1..][1..][1..] == [AfternoonOut];
    assert [AfternoonOut][1..] == [];
    assert CompletedIn(e, records, user, excuses, [AfternoonOut])
        == Counted(e, records, user, excuses, AfternoonOut);
    assert CompletedIn(e, records, user, excuses, [AfternoonIn, AfternoonOut])
        == Counted(e, records, user, excuses, AfternoonIn)
         + CompletedIn(e, records, user, excuses, [AfternoonOut]);
    assert CompletedIn(e, records, user, excuses, [MorningOut, AfternoonIn, AfternoonOut])
        == Counted(e, records, user, excuses, MorningOut)
         + CompletedIn(e, records, user, excuses, [AfternoonIn, AfternoonOut]);
  }

  /** `total_possible_scans` over the first `n` events. */
  function TotalPossible(events: seq<Event>, n: nat): nat
    requires n <= |events|
  {
    if n == 0 then 0 else TotalPossible(events, n - 1) + events[n - 1].EnabledCount()
  }

  /** `total_completed_scans` over the first `n` events. */
  function TotalCompleted(events: seq<Event>, n: nat, records: map<RecordKey, AttendanceRecord>, user: int,
                          excuses: seq<Excuse>): nat
    requires n <= |events|
    reads excuses
  {
    if n == 0 then 0
    else TotalCompleted(events, n - 1, records, user, excuses) + CompletedIn(events[n - 1], records, user, excuses, ScanOrder)
  }

  lemma {:induction false} TotalsBound(events: seq<Event>, n: nat, records: map<RecordKey, AttendanceRecord>, user: int,
                                       excuses: seq<Excuse>)
    requires n <= |events|
    ensures TotalCompleted(events, n, records, user, excuses) <= TotalPossible(events, n)
  {
    if n > 0 {
      TotalsBound(events, n - 1, records, user, excuses);
      CompletedAtMostPossible(events[n - 1], records, user, excuses);
    }
  }

  /** One more event adds its enabled types and its completed ones. */
  lemma TotalsStep(events: seq<Event>, i: nat, records: map<RecordKey, AttendanceRecord>, user: int,
                   excuses: seq<Excuse>)
    requires i < |events|
    ensures TotalPossible(events, i + 1) == TotalPossible(events, i) + events[i].EnabledCount()
    ensures TotalCompleted(events, i + 1, records, user, excuses)
            == TotalCompleted(events, i, records, user, excuses) + CompletedIn(events[i], records, user, excuses, ScanOrder)
  {
  }

  /** The event loop of `OrganizationMandatorySummaryView.get_context_data`:
      `records` holds the member's attendance records, `excuses` the
      member's pending and approved excuses in query order. */
  method SummaryTotals(events: seq<Event>, records: map<RecordKey, AttendanceRecord>, user: int, excuses: seq<Excuse>)
      returns (possible: nat, completed: nat)
    ensures possible == TotalPossible(events, |events|)
    ensures completed == TotalCompleted(events, |events|, records, user, excuses)
    ensures completed <= possible
  {
    possible, completed := 0, 0;
    var i := 0;
    while i < |events|
      invariant 0 <= i <= |events|
      invariant possible == TotalPossible(events, i)
      invariant completed == TotalCompleted(events, i, records, user, excuses)
    {
      var e := events[i];
      TotalsStep(events, i, records, user, excuses);
      possible := possible + e.EnabledCount();
      var count := EventCompleted(e, records, user, excuses);
      completed := completed + count;
      i := i + 1;
    }
    TotalsBound(events, |events|, records, user, excuses);
  }

  // ---------------------------------------------------------------------
  // Requesting an excuse.
  // ---------------------------------------------------------------------

  datatype RequestRefusal = NotMandatory | NotRegistered | AlreadyExcused

  /** A pending or approved excuse of the user for exactly this event and type. */
  predicate OpenExcuse(excuses: seq<Excuse>, event: int, user: int, kind: string)
    reads excuses
  {
    exists i :: 0 <= i < |excuses| && excuses[i].event == event && excuses[i].user == user
                && excuses[i].attendanceType == kind && excuses[i].status != Rejected
  }

  /** Why `RequestExcuseView.form_valid` turns a request away, if it does:
      `registered` says whether any registration of the user for the event
      exists, whatever its status. */
  function RequestRefusalFor(e: Event, user: int, kind: string, registered: bool, excuses: seq<Excuse>)
      : Option<RequestRefusal>
    reads excuses
  {
    if !e.IsMandatory() then Some(NotMandatory)
    else if !registered then Some(NotRegistered)
    else if OpenExcuse(excuses, e.id, user, kind) then Some(AlreadyExcused)
    else None
  }

  /** `RequestExcuseView.form_valid`: a refused request leaves the table as
      it was; an accepted one appends one new pending excuse. */
  method RequestExcuse(e: Event, user: int, kind: string, reason: string, registered: bool,
                       excuses: seq<Excuse>, id: int)
      returns (refusal: Option<RequestRefusal>, excusesAfter: seq<Excuse>)
    ensures refusal == RequestRefusalFor(e, user, kind, registered, excuses)
    ensures refusal.Some? ==> excusesAfter == excuses
    ensures refusal.None? ==> |excusesAfter| == |excuses| + 1 && excusesAfter[..|excuses|] == excuses
    ensures refusal.None? ==> var ex := excusesAfter[|excuses|];
      && fresh(ex) && ex.id == id && ex.event == e.id && ex.user == user && ex.attendanceType == kind
      && ex.reason == reason && ex.status == Pending && ex.reviewedBy.None? && ex.reviewedAt.None?
  {
    if !e.IsMandatory() {
      return Some(NotMandatory), excuses;
    }
    if !registered {
      return Some(NotRegistered), excuses;
    }
    if OpenExcuse(excuses, e.id, user, kind) {
      return Some(AlreadyExcused), excuses;
    }
    var ex := new Excuse(id, e.id, user, kind, reason);
    refusal, excusesAfter := None, excuses + [ex];
  }

  /** The three refusals, each exactly when its condition holds first. */
  lemma RequestRefusalCases(e: Event, user: int, kind: string, registered: bool, excuses: seq<Excuse>)
    ensures RequestRefusalFor(e, user, kind, registered, excuses) == Some(NotMandatory) <==> !e.IsMandatory()
    ensures RequestRefusalFor(e, user, kind, registered, excuses) == Some(NotRegistered)
            <==> e.IsMandatory() && !registered
    ensures RequestRefusalFor(e, user, kind, registered, excuses) == Some(AlreadyExcused)
            <==> e.IsMandatory() && registered && OpenExcuse(excuses, e.id, user, kind)
    ensures RequestRefusalFor(e, user, kind, registered, excuses).None?
            <==> e.IsMandatory() && registered && !OpenExcuse(excuses, e.id, user, kind)
  {
  }

  /** Once a request has been stored, the same request is refused as a duplicate. */
  lemma RepeatRequestRefused(e: Event, user: int, kind: string, registered: bool, excuses: seq<Excuse>, ex: Excuse)
    requires e.IsMandatory() && registered
    requires ex.event == e.id && ex.user == user && ex.attendanceType == kind && ex.status == Pending
    ensures RequestRefusalFor(e, user, kind, registered, excuses + [ex]) == Some(AlreadyExcused)
  {
    assert (excuses + [ex])[|excuses|] == ex;
  }

  // ---------------------------------------------------------------------
  // Reviewing an excuse.
  // ---------------------------------------------------------------------

  /** `get_queryset` of the review view: only pending excuses are found, and
      a reviewer who is not a superuser only finds those whose event belongs
      to an organization the reviewer organizes. */
  predicate Reviewable(ex: Excuse, e: Event, isSuperuser: bool, organizedOrgs: set<int>)
    reads ex
  {
    ex.status == Pending && (isSuperuser || (e.organization.Some? && e.organization.value in organizedOrgs))
  }

  /** The codes of the enabled types, in the fixed order. */
  function EnabledCodes(e: Event): (r: seq<string>)
    ensures |r| == e.EnabledCount()
    ensures forall t :: Code(t) in r <==> e.Enabled(t)
  {
    (if e.morningIn.enabled then [Code(MorningIn)] else []) + (if e.morningOut.enabled then [Code(MorningOut)] else [])
    + (if e.afternoonIn.enabled then [Code(AfternoonIn)] else [])
    + (if e.afternoonOut.enabled then [Code(AfternoonOut)] else [])
  }

  /** The types an approval books, comparing with the marker as the source
      does: every enabled type for the marker, else the stored type alone. */
  function ApprovalScope(e: Event, attendanceType: string): seq<string>
  {
    if attendanceType == AllMarker then EnabledCodes(e) else [attendanceType]
  }

  /** The scope the source's comments describe: "ALL" books every enabled type. */
  function ApprovalScopeIntended(e: Event, attendanceType: string): seq<string>
  {
    if attendanceType == AllCode then EnabledCodes(e) else [attendanceType]
  }

  /** Read literally, an approved "ALL" excuse books one record of type
      "ALL" instead of one per enabled type; the two scopes agree elsewhere. */
  lemma AllApprovalBooksOneRecord(e: Event, attendanceType: string)
    ensures attendanceType == AllCode ==> (ApprovalScope(e, attendanceType) == [AllCode]
                                           && ApprovalScopeIntended(e, attendanceType) == EnabledCodes(e))
    ensures attendanceType != AllCode && attendanceType != AllMarker
            ==> ApprovalScope(e, attendanceType) == ApprovalScopeIntended(e, attendanceType) == [attendanceType]
  {
  }

  /** `"Approved excuse: " + reason[:100]`. */
  function ApprovalNote(reason: string): (n: string)
    ensures |"Approved excuse: "| <= |n| <= |"Approved excuse: "| + 100
    ensures n[..|"Approved excuse: "|] == "Approved excuse: "
    ensures n[|"Approved excuse: "|..] <= reason
    ensures |n| - |"Approved excuse: "| == if |reason| <= 100 then |reason| else 100
    ensures |reason| <= 100 ==> n[|"Approved excuse: "|..] == reason
  {
    "Approved excuse: " + (if |reason| <= 100 then reason else reason[..100])
  }

  /** `"Approved Excuse: {title} ({type})"`. */
  function ApprovalReason(e: Event, kind: string): string
  {
    "Approved Excuse: " + e.title + " (" + kind + ")"
  }

  /** The record table after the first `n` types of `scope` have been
      processed: a type without a record gets one, an existing one stays. */
  function ApprovalFold(records: map<RecordKey, AttendanceRecord>, event: int, user: int, scope: seq<string>, n: nat,
                        rec: AttendanceRecord): map<RecordKey, AttendanceRecord>
    requires n <= |scope|
  {
    if n == 0 then records
    else
      var prev := ApprovalFold(records, event, user, scope, n - 1, rec);
      var key := RecordKey(event, user, scope[n - 1]);
      if key in prev then prev else prev[key := rec]
  }

  /** The types among the first `n` of `scope` for which a record was created. */
  function CreatedKinds(records: map<RecordKey, AttendanceRecord>, event: int, user: int, scope: seq<string>, n: nat,
                        rec: AttendanceRecord): seq<string>
    requires n <= |scope|
  {
    if n == 0 then []
    else
      var prev := CreatedKinds(records, event, user, scope, n - 1, rec);
      if RecordKey(event, user, scope[n - 1]) in ApprovalFold(records, event, user, scope, n - 1, rec) then prev
      else prev + [scope[n - 1]]
  }

  /** The profile rows the awards append, each holding the running total. */
  function ExcuseLog(e: Event, kinds: seq<string>, award: nat, balance: int): seq<PointsTransaction>
  {
    if kinds == [] then []
    else ExcuseLog(e, kinds[..|kinds| - 1], award, balance)
         + [PointsTransaction(award, ApprovalReason(e, kinds[|kinds| - 1]), Some(e.id), balance + award * |kinds|)]
  }

  /** One more created type appends one more row to the log. */
  lemma ExcuseLogSnoc(e: Event, kinds: seq<string>, kind: string, award: nat, balance: int, current: int)
    requires current == balance + award * |kinds|
    ensures ExcuseLog(e, kinds + [kind], award, balance)
            == ExcuseLog(e, kinds, award, balance)
               + [PointsTransaction(award, ApprovalReason(e, kind), Some(e.id), current + award)]
    ensures current + award == balance + award * |kinds + [kind]|
  {
    assert (kinds + [kind])[..|kinds|] == kinds;
  }

  /** The approval never overwrites a record: every old record survives, and
      the new keys are exactly the scope's keys that had none. */
  lemma {:induction false} ApprovalKeepsRecords(records: map<RecordKey, AttendanceRecord>, event: int, user: int,
                                                scope: seq<string>, n: nat, rec: AttendanceRecord)
    requires n <= |scope|
    ensures var after := ApprovalFold(records, event, user, scope, n, rec);
      && (forall k :: k in records ==> k in after && after[k] == records[k])
      && (forall k :: k in after && k !in records ==> after[k] == rec && k.event == event && k.user == user
                                                      && k.kind in scope[..n])
      && (forall j :: 0 <= j < n ==> RecordKey(event, user, scope[j]) in after)
  {
    if n > 0 {
      ApprovalKeepsRecords(records, event, user, scope, n - 1, rec);
      assert forall j :: 0 <= j < n - 1 ==> scope[..n - 1][j] == scope[..n][j];
      assert scope[..n][n - 1] == scope[n - 1];
    }
  }

  /** The created types are scope types that had no record, each created once. */
  lemma {:induction false} CreatedAreNew(records: map<RecordKey, AttendanceRecord>, event: int, user: int,
                                         scope: seq<string>, n: nat, rec: AttendanceRecord)
    requires n <= |scope|
    ensures var created := CreatedKinds(records, event, user, scope, n, rec);
      && |created| <= n
      && (forall i :: 0 <= i < |created| ==> created[i] in scope[..n] && RecordKey(event, user, created[i]) !in records)
      && (forall i, j :: 0 <= i < j < |created| ==> created[i] != created[j])
      && (forall i :: 0 <= i < |created| ==> RecordKey(event, user, created[i]) in ApprovalFold(records, event, user, scope, n, rec))
  {
    if n > 0 {
      var prev := CreatedKinds(records, event, user, scope, n - 1, rec);
      CreatedAreNew(records, event, user, scope, n - 1, rec);
      ApprovalKeepsRecords(records, event, user, scope, n - 1, rec);
      assert forall j :: 0 <= j < n - 1 ==> scope[..n - 1][j] == scope[..n][j];
      assert scope[..n][n - 1] == scope[n - 1];
    }
  }

  /** Approving again over the resulting table creates nothing and changes nothing. */
  lemma {:induction false} ApprovalIdempotent(records: map<RecordKey, AttendanceRecord>, event: int, user: int,
                                              scope: seq<string>, n: nat, rec: AttendanceRecord)
    requires n <= |scope|
    ensures var after := ApprovalFold(records, event, user, scope, n, rec);
      && ApprovalFold(after, event, user, scope, n, rec) == after
      && CreatedKinds(after, event, user, scope, n, rec) == []
  {
    var after := ApprovalFold(records, event, user, scope, n, rec);
    ApprovalKeepsRecords(records, event, user, scope, n, rec);
    AlreadyRecordedUnchanged(after, event, user, scope, n, rec);
  }

  lemma {:induction false} AlreadyRecordedUnchanged(records: map<RecordKey, AttendanceRecord>, event: int, user: int,
                                                    scope: seq<string>, n: nat, rec: AttendanceRecord)
    requires n <= |scope|
    requires forall j :: 0 <= j < n ==> RecordKey(event, user, scope[j]) in records
    ensures ApprovalFold(records, event, user, scope, n, rec) == records
    ensures CreatedKinds(records, event, user, scope, n, rec) == []
  {
    if n > 0 {
      AlreadyRecordedUnchanged(records, event, user, scope, n - 1, rec);
    }
  }

  /** Row `i` of the award log: the award, the reason naming the type, and
      the old balance plus `i + 1` awards. */
  lemma {:induction false} ExcuseLogRows(e: Event, kinds: seq<string>, award: nat, balance: int)
    ensures |ExcuseLog(e, kinds, award, balance)| == |kinds|
    ensures forall i :: 0 <= i < |kinds| ==> (ExcuseLog(e, kinds, award, balance)[i]
              == PointsTransaction(award, ApprovalReason(e, kinds[i]), Some(e.id), balance + award * (i + 1)))
  {
    if kinds != [] {
      var init := kinds[..|kinds| - 1];
      ExcuseLogRows(e, init, award, balance);
      assert forall i :: 0 <= i < |init| ==> init[i] == kinds[i];
    }
  }

  /** The awards of the log add up to one award per created record. */
  lemma {:induction false} ExcuseLogSum(e: Event, kinds: seq<string>, award: nat, balance: int)
    ensures SumAmounts(ExcuseLog(e, kinds, award, balance)) == award * |kinds|
  {
    if kinds != [] {
      var init := kinds[..|kinds| - 1];
      var log := ExcuseLog(e, kinds, award, balance);
      ExcuseLogSum(e, init, award, balance);
      assert log[..|log| - 1] == ExcuseLog(e, init, award, balance);
      assert award * |kinds| == award * |init| + award;
    }
  }

  /** The award log is chained: each row's total is the previous one's plus the award. */
  lemma ExcuseLogChained(e: Event, kinds: seq<string>, award: nat, balance: int)
    ensures Chained(ExcuseLog(e, kinds, award, balance))
  {
    var log := ExcuseLog(e, kinds, award, balance);
    ExcuseLogRows(e, kinds, award, balance);
    forall i | 0 < i < |log|
      ensures log[i].balanceAfter == log[i - 1].balanceAfter + log[i].amount
    {
      assert award * (i + 1) == award * i + award;
    }
  }

  /** The booking loop of an approval: one record per scope type that has
      none, and, when the award is positive and the user has a profile, the
      award credited once per created record. */
  method BookApproval(e: Event, user: int, reviewer: int, scope: seq<string>, award: nat, note: string,
                      ledger: AttendanceLedger, profile: Option<UserProfile>)
      returns (created: seq<string>, awarded: nat)
    modifies ledger, if profile.Some? then {profile.value} else {}
    ensures var rec := AttendanceRecord(Some(reviewer), award, note);
      && ledger.records == ApprovalFold(old(ledger.records), e.id, user, scope, |scope|, rec)
      && created == CreatedKinds(old(ledger.records), e.id, user, scope, |scope|, rec)
    ensures awarded == if award > 0 && profile.Some? then award * |created| else 0
    ensures profile.Some? && award > 0 ==> var p := profile.value;
      && p.totalPoints == old(p.totalPoints) + awarded
      && p.transactions == old(p.transactions) + ExcuseLog(e, created, award, old(p.totalPoints))
    ensures profile.Some? && award == 0 ==> unchanged(profile.value)
  {
    var rec := AttendanceRecord(Some(reviewer), award, note);
    ghost var records0 := ledger.records;
    ghost var total0 := if profile.Some? then profile.value.totalPoints else 0;
    ghost var log0 := if profile.Some? then profile.value.transactions else [];
    created := [];
    var i := 0;
    while i < |scope|
      invariant 0 <= i <= |scope|
      invariant Booked(ledger.records, created, records0, e.id, user, scope, i, rec)
      invariant award > 0 && profile.Some? ==>
                  Credited(profile.value.totalPoints, profile.value.transactions, total0, log0, e, created, award)
      invariant profile.Some? && award == 0 ==> unchanged(profile.value)
    {
      created := BookStep(e, user, scope, i, rec, award, ledger, profile, created, records0, total0, log0);
      i := i + 1;
    }
    var n := |created|;
    awarded := if award > 0 && profile.Some? then award * n else 0;
  }

  /** The ledger and the created types after the first `i` scope types. */
  ghost predicate Booked(records: map<RecordKey, AttendanceRecord>, created: seq<string>,
                         records0: map<RecordKey, AttendanceRecord>, event: int, user: int, scope: seq<string>,
                         i: nat, rec: AttendanceRecord)
    requires i <= |scope|
  {
    records == ApprovalFold(records0, event, user, scope, i, rec) && created == CreatedKinds(records0, event, user, scope, i, rec)
  }

  /** The profile after one award per created type: the balance and the
      log grown from `total0` and `log0`. */
  ghost predicate Credited(total: int, log: seq<PointsTransaction>, total0: int, log0: seq<PointsTransaction>,
                           e: Event, created: seq<string>, award: nat)
  {
    total == total0 + award * |created| && log == log0 + ExcuseLog(e, created, award, total0)
  }

  /** One pass of the booking loop, stated as the progress it makes. */
  method BookStep(e: Event, user: int, scope: seq<string>, i: nat, rec: AttendanceRecord, award: nat,
                  ledger: AttendanceLedger, profile: Option<UserProfile>, created: seq<string>,
                  ghost records0: map<RecordKey, AttendanceRecord>, ghost total0: int, ghost log0: seq<PointsTransaction>)
      returns (created': seq<string>)
    requires i < |scope|
    requires Booked(ledger.records, created, records0, e.id, user, scope, i, rec)
    requires award > 0 && profile.Some? ==>
               Credited(profile.value.totalPoints, profile.value.transactions, total0, log0, e, created, award)
    modifies ledger, if profile.Some? then {profile.value} else {}
    ensures Booked(ledger.records, created', records0, e.id, user, scope, i + 1, rec)
    ensures award > 0 && profile.Some? ==>
              Credited(profile.value.totalPoints, profile.value.transactions, total0, log0, e, created', award)
    ensures profile.Some? && award == 0 ==> unchanged(profile.value)
  {
    var kind := scope[i];
    ghost var total := if profile.Some? then profile.value.totalPoints else 0;
    ghost var log := if profile.Some? then profile.value.transactions else [];
    var made := BookKind(e, user, kind, rec, award, ledger, profile);
    FoldStep(records0, e.id, user, scope, i, rec, made);
    if made && award > 0 && profile.Some? {
      CreditStep(total, log, total0, log0, e, created, kind, award);
    }
    created' := if made then created + [kind] else created;
  }

  /** Crediting one more created type keeps the profile in step. */
  lemma CreditStep(total: int, log: seq<PointsTransaction>, total0: int, log0: seq<PointsTransaction>,
                   e: Event, created: seq<string>, kind: string, award: nat)
    requires Credited(total, log, total0, log0, e, created, award)
    ensures Credited(total + award, log + [PointsTransaction(award, ApprovalReason(e, kind), Some(e.id), total + award)],
                     total0, log0, e, created + [kind], award)
  {
    ExcuseLogSnoc(e, created, kind, award, total0, total);
  }

  /** One step of the fold: the next scope type is booked exactly when
      it has no record yet. */
  lemma FoldStep(records: map<RecordKey, AttendanceRecord>, event: int, user: int, scope: seq<string>, i: nat,
                 rec: AttendanceRecord, made: bool)
    requires i < |scope|
    requires made <==> RecordKey(event, user, scope[i]) !in ApprovalFold(records, event, user, scope, i, rec)
    ensures ApprovalFold(records, event, user, scope, i + 1, rec)
            == if made then ApprovalFold(records, event, user, scope, i, rec)[RecordKey(event, user, scope[i]) := rec]
               else ApprovalFold(records, event, user, scope, i, rec)
    ensures CreatedKinds(records, event, user, scope, i + 1, rec)
            == if made then CreatedKinds(records, event, user, scope, i, rec) + [scope[i]]
               else CreatedKinds(records, event, user, scope, i, rec)
  {
  }

  /** One pass of the booking loop: a record for `kind` unless one exists,
      and, when one is made, the award credited to the profile. */
  method BookKind(e: Event, user: int, kind: string, rec: AttendanceRecord, award: nat,
                  ledger: AttendanceLedger, profile: Option<UserProfile>) returns (made: bool)
    modifies ledger, if profile.Some? then {profile.value} else {}
    ensures made <==> RecordKey(e.id, user, kind) !in old(ledger.records)
    ensures ledger.records == if made then old(ledger.records)[RecordKey(e.id, user, kind) := rec] else old(ledger.records)
    ensures profile.Some? && award > 0 ==> var p := profile.value;
      && p.totalPoints == old(p.totalPoints) + (if made then award else 0)
      && p.transactions == old(p.transactions)
                           + (if made then [PointsTransaction(award, ApprovalReason(e, kind), Some(e.id), old(p.totalPoints) + award)] else [])
    ensures profile.Some? && award == 0 ==> unchanged(profile.value)
  {
    var key := RecordKey(e.id, user, kind);
    made := false;
    if key !in ledger.records {
      made := ledger.Create(key, rec);
      if award > 0 && profile.Some? {
        profile.value.AddPoints(award, ApprovalReason(e, kind), Some(e.id));
      }
    }
  }

  /** `attendance_types_to_create`, built by appends. */
  method ScopeOf(e: Event, attendanceType: string) returns (scope: seq<string>)
    ensures scope == ApprovalScope(e, attendanceType)
  {
    scope := [];
    if attendanceType == AllMarker {
      if e.morningIn.enabled { scope := scope + [Code(MorningIn)]; }
      if e.morningOut.enabled { scope := scope + [Code(MorningOut)]; }
      if e.afternoonIn.enabled { scope := scope + [Code(AfternoonIn)]; }
      if e.afternoonOut.enabled { scope := scope + [Code(AfternoonOut)]; }
    } else {
      scope := scope + [attendanceType];
    }
  }

  /** `points_per_scan`: the event's points split evenly over the enabled types. */
  method ShareOf(e: Event) returns (award: nat)
    ensures award == PointsPerScan(e.GetPoints(), e.EnabledCount())
  {
    var enabledCount := e.EnabledCount();
    if enabledCount == 0 {
      award := 0;
    } else {
      award := e.GetPoints() / enabledCount;
    }
  }

  datatype ReviewOutcome = NotFound | Reviewed(created: seq<string>, awarded: nat)

  /** The stamps a review writes: reviewer, time, status and notes. */
  method StampReview(ex: Excuse, reviewer: int, now: int, newStatus: ExcuseStatus, notes: string)
    modifies ex
    ensures ex.status == newStatus && ex.reviewNotes == notes && ex.reviewedBy == Some(reviewer) && ex.reviewedAt == Some(now)
  {
    ex.reviewedBy := Some(reviewer);
    ex.reviewedAt := Some(now);
    ex.status := newStatus;
    ex.reviewNotes := notes;
  }

  /** What an approval leaves behind: the scope's missing records booked
      with the per-scan share, the created types reported, and the excused
      user's profile credited once per created record when the share is
      positive, untouched otherwise. */
  twostate predicate ApprovalBooked(reviewer: int, ex: Excuse, e: Event, ledger: AttendanceLedger,
                                    profiles: map<int, UserProfile>, created: seq<string>, awarded: nat)
    reads ledger, if ex.user in profiles then {profiles[ex.user]} else {}
  {
    var award := PointsPerScan(e.GetPoints(), e.EnabledCount());
    var rec := AttendanceRecord(Some(reviewer), award, ApprovalNote(ex.reason));
    var scope := ApprovalScope(e, ex.attendanceType);
    && ledger.records == ApprovalFold(old(ledger.records), e.id, ex.user, scope, |scope|, rec)
    && created == CreatedKinds(old(ledger.records), e.id, ex.user, scope, |scope|, rec)
    && awarded == (if award > 0 && ex.user in profiles then award * |created| else 0)
    && (ex.user in profiles && award == 0 ==> unchanged(profiles[ex.user]))
    && (ex.user in profiles && award > 0 ==>
          var p := profiles[ex.user];
          && p.totalPoints == old(p.totalPoints) + awarded
          && p.transactions == old(p.transactions) + ExcuseLog(e, created, award, old(p.totalPoints)))
  }

  /** The approval branch of a review: the scope of the excuse, the
      per-scan share, and the booking loop over the scope. */
  method Approve(reviewer: int, ex: Excuse, e: Event, ledger: AttendanceLedger, profiles: map<int, UserProfile>)
      returns (created: seq<string>, awarded: nat)
    requires ex.event == e.id
    modifies ledger, if ex.user in profiles then {profiles[ex.user]} else {}
    ensures ApprovalBooked(reviewer, ex, e, ledger, profiles, created, awarded)
  {
    var scope := ScopeOf(e, ex.attendanceType);
    var award := ShareOf(e);
    var profile: Option<UserProfile> := if ex.user in profiles then Some(profiles[ex.user]) else None;
    created, awarded := BookApproval(e, ex.user, reviewer, scope, award, ApprovalNote(ex.reason), ledger, profile);
  }

  /** `ReviewExcuseDetailView.form_valid`: the review stamps who and when and
      stores the chosen status and notes; a first approval books the scope's
      missing records with the per-scan share of the event's points and
      credits the excused user; any other review books and credits nothing. */
  method ReviewExcuse(reviewer: int, isSuperuser: bool, organizedOrgs: set<int>, ex: Excuse, e: Event, now: int,
                      newStatus: ExcuseStatus, notes: string, ledger: AttendanceLedger, profiles: map<int, UserProfile>)
      returns (outcome: ReviewOutcome)
    requires ex.event == e.id
    modifies ex, ledger, if ex.user in profiles then {profiles[ex.user]} else {}
    ensures !old(Reviewable(ex, e, isSuperuser, organizedOrgs)) ==> outcome == NotFound && unchanged(ex, ledger)
    ensures old(Reviewable(ex, e, isSuperuser, organizedOrgs)) ==> (outcome.Reviewed?
      && ex.status == newStatus && ex.reviewNotes == notes && ex.reviewedBy == Some(reviewer) && ex.reviewedAt == Some(now))
    ensures old(Reviewable(ex, e, isSuperuser, organizedOrgs)) && newStatus == Approved ==>
      ApprovalBooked(reviewer, ex, e, ledger, profiles, outcome.created, outcome.awarded)
    ensures old(Reviewable(ex, e, isSuperuser, organizedOrgs)) && newStatus != Approved ==>
      outcome == Reviewed([], 0) && unchanged(ledger)
    ensures ex.user in profiles && !(old(Reviewable(ex, e, isSuperuser, organizedOrgs)) && newStatus == Approved)
            ==> unchanged(profiles[ex.user])
  {
    if !Reviewable(ex, e, isSuperuser, organizedOrgs) {
      return NotFound;
    }
    var oldStatus := ex.status;
    StampReview(ex, reviewer, now, newStatus, notes);
    if newStatus == Approved && oldStatus != Approved {
      var created, awarded := Approve(reviewer, ex, e, ledger, profiles);
      return Reviewed(created, awarded);
    }
    return Reviewed([], 0);
  }

  /** Only pending excuses can be reviewed, so a second review of an
      approved excuse finds nothing and cannot book or award again. */
  lemma ApprovedNotReviewable(ex: Excuse, e: Event, isSuperuser: bool, organizedOrgs: set<int>)
    requires ex.status == Approved
    ensures !Reviewable(ex, e, isSuperuser, organizedOrgs)
  {
  }
}
