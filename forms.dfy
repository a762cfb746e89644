/** The two forms with logic of their own: the event form's cross-field
    validation, which also derives the event's start and end datetimes from
    its date and optional times, and the excuse form's choice list, which
    offers only the event's enabled scan types. */
module Forms {
  import opened Common
  import opened Models

  // ---------------------------------------------------------------------
  // `EventForm.clean`.
  // ---------------------------------------------------------------------

  datatype EventFormError = EventDateRequired | EndNotAfterStart | DeadlineNotBeforeDate

  /** `start_datetime`: the date at the given start time, else at midnight. */
  function StartDatetime(date: int, startTime: Option<TimeOfDay>): int
  {
    Combine(date, if startTime.Some? then startTime.value else 0)
  }

  /** `end_datetime`: the date at the given end time, else at 23:59:59. */
  function EndDatetime(date: int, endTime: Option<TimeOfDay>): int
  {
    Combine(date, if endTime.Some? then endTime.value else EndOfDay)
  }

  /** The first validation error `clean` raises, in the order it checks. */
  function CleanError(eventDate: Option<int>, startTime: Option<TimeOfDay>, endTime: Option<TimeOfDay>,
                      registrationDeadline: Option<int>): Option<EventFormError>
  {
    if eventDate.None? then Some(EventDateRequired)
    else if startTime.Some? && endTime.Some? && endTime.value <= startTime.value then Some(EndNotAfterStart)
    else if registrationDeadline.Some? && registrationDeadline.value >= eventDate.value then Some(DeadlineNotBeforeDate)
    else None
  }

  /** The `cleaned_data` of an event form: the four inputs `clean` reads and
      the two datetimes it writes. */
  class EventFormData {
    const eventDate: Option<int>
    const startTime: Option<TimeOfDay>
    const endTime: Option<TimeOfDay>
    const registrationDeadline: Option<int>
    var startDatetime: Option<int>
    var endDatetime: Option<int>

    constructor(eventDate: Option<int>, startTime: Option<TimeOfDay>, endTime: Option<TimeOfDay>,
                registrationDeadline: Option<int>)
      ensures this.eventDate == eventDate && this.startTime == startTime && this.endTime == endTime
      ensures this.registrationDeadline == registrationDeadline
      ensures startDatetime.None? && endDatetime.None?
    {
      this.eventDate := eventDate;
      this.startTime := startTime;
      this.endTime := endTime;
      this.registrationDeadline := registrationDeadline;
      startDatetime := None;
      endDatetime := None;
    }

    /** `clean`: a missing date is refused before anything is written; a
        dated form gets both datetimes written, and is then refused if both
        times are given out of order or the deadline is not before the date. */
    method Clean() returns (error: Option<EventFormError>)
      modifies this
      ensures error == CleanError(eventDate, startTime, endTime, registrationDeadline)
      ensures eventDate.None? ==> startDatetime == old(startDatetime) && endDatetime == old(endDatetime)
      ensures eventDate.Some? ==> (startDatetime == Some(StartDatetime(eventDate.value, startTime))
                                   && endDatetime == Some(EndDatetime(eventDate.value, endTime)))
    {
      if eventDate.None? {
        return Some(EventDateRequired);
      }
      var date := eventDate.value;
      if startTime.Some? {
        startDatetime := Some(Combine(date, startTime.value));
      } else {
        startDatetime := Some(Combine(date, 0));
      }
      if endTime.Some? {
        endDatetime := Some(Combine(date, endTime.value));
      } else {
        endDatetime := Some(Combine(date, EndOfDay));
      }
      if startTime.Some? && endTime.Some? && endTime.value <= startTime.value {
        return Some(EndNotAfterStart);
      }
      if registrationDeadline.Some? && registrationDeadline.value >= date {
        return Some(DeadlineNotBeforeDate);
      }
      return None;
    }
  }

  /** Each refusal of `clean`, exactly when its condition is the first to hold. */
  lemma CleanErrorCases(eventDate: Option<int>, startTime: Option<TimeOfDay>, endTime: Option<TimeOfDay>,
                        deadline: Option<int>)
    ensures CleanError(eventDate, startTime, endTime, deadline) == Some(EventDateRequired) <==> eventDate.None?
    ensures CleanError(eventDate, startTime, endTime, deadline) == Some(EndNotAfterStart)
            <==> eventDate.Some? && startTime.Some? && endTime.Some? && endTime.value <= startTime.value
    ensures CleanError(eventDate, startTime, endTime, deadline) == Some(DeadlineNotBeforeDate)
            <==> (eventDate.Some? && !(startTime.Some? && endTime.Some? && endTime.value <= startTime.value)
                  && deadline.Some? && deadline.value >= eventDate.value)
  {
  }

  /** A form that passes describes a well-ordered span inside the event's
      day, with the given times where present and the whole day otherwise;
      with both times given the span is non-empty. */
  lemma CleanedSpan(date: int, startTime: Option<TimeOfDay>, endTime: Option<TimeOfDay>, deadline: Option<int>)
    requires CleanError(Some(date), startTime, endTime, deadline).None?
    ensures DateOf(StartDatetime(date, startTime)) == date && DateOf(EndDatetime(date, endTime)) == date
    ensures TimeOf(StartDatetime(date, startTime)) == if startTime.Some? then startTime.value else 0
    ensures TimeOf(EndDatetime(date, endTime)) == if endTime.Some? then endTime.value else EndOfDay
    ensures StartDatetime(date, startTime) <= EndDatetime(date, endTime)
    ensures startTime.Some? && endTime.Some? ==> StartDatetime(date, startTime) < EndDatetime(date, endTime)
    ensures deadline.Some? ==> deadline.value < date
  {
    var s := if startTime.Some? then startTime.value else 0;
    var e := if endTime.Some? then endTime.value else EndOfDay;
    assert StartDatetime(date, startTime) == date * SecondsPerDay + s;
    assert EndDatetime(date, endTime) == date * SecondsPerDay + e;
  }

  /** With no times given, `clean` writes the same datetimes `Event.save`
      would fill in for the date. */
  lemma CleanDefaultsAgreeWithSave(date: int)
    ensures StartDatetime(date, None) == Combine(date, 0) && EndDatetime(date, None) == Combine(date, EndOfDay)
    ensures EndDatetime(date, None) - StartDatetime(date, None) == EndOfDay
  {
  }

  // ---------------------------------------------------------------------
  // `ExcuseForm.__init__`.
  // ---------------------------------------------------------------------

  datatype Choice = Choice(value: string, text: string)

  const BlankChoice: Choice := Choice("", "---------")
  const AllChoice: Choice := Choice(AllCode, AllLabel)

  function TypeChoice(t: ScanType): Choice
  {
    Choice(Code(t), Label(t))
  }

  /** The choice of each type of `ts`, in order. */
  function TypeChoices(ts: seq<ScanType>): seq<Choice>
  {
    seq(|ts|, i requires 0 <= i < |ts| => TypeChoice(ts[i]))
  }

  lemma TypeChoicesSnoc(ts: seq<ScanType>, t: ScanType)
    ensures TypeChoices(ts + [t]) == TypeChoices(ts) + [TypeChoice(t)]
  {
  }

  /** The model field's own choices, kept when the form gets no event. */
  function ModelChoices(): seq<Choice>
  {
    TypeChoices(ScanOrder) + [AllChoice]
  }

  /** The choices offered for an event: a blank entry, the enabled types in
      the fixed order, and the all-types entry. */
  function EventChoices(e: Event): seq<Choice>
  {
    [BlankChoice] + TypeChoices(e.EnabledTypes()) + [AllChoice]
  }

  /** `ExcuseForm.__init__`: with an event, the choice list built by appends. */
  method ExcuseChoices(event: Option<Event>) returns (choices: seq<Choice>)
    ensures event.None? ==> choices == ModelChoices()
    ensures event.Some? ==> choices == EventChoices(event.value)
  {
    if event.None? {
      return ModelChoices();
    }
    var e := event.value;
    choices := [BlankChoice];
    ghost var ts: seq<ScanType> := [];
    if e.morningIn.enabled {
      TypeChoicesSnoc(ts, MorningIn);
      choices, ts := choices + [TypeChoice(MorningIn)], ts + [MorningIn];
    }
    assert choices == [BlankChoice] + TypeChoices(ts);
    if e.morningOut.enabled {
      TypeChoicesSnoc(ts, MorningOut);
      choices, ts := choices + [TypeChoice(MorningOut)], ts + [MorningOut];
    }
    assert choices == [BlankChoice] + TypeChoices(ts);
    if e.afternoonIn.enabled {
      TypeChoicesSnoc(ts, AfternoonIn);
      choices, ts := choices + [TypeChoice(AfternoonIn)], ts + [AfternoonIn];
    }
    assert choices == [BlankChoice] + TypeChoices(ts);
    if e.afternoonOut.enabled {
      TypeChoicesSnoc(ts, AfternoonOut);
      choices, ts := choices + [TypeChoice(AfternoonOut)], ts + [AfternoonOut];
    }
    assert choices == [BlankChoice] + TypeChoices(ts);
    assert ts == e.EnabledTypes();
    choices := choices + [AllChoice];
    assert choices == [BlankChoice] + TypeChoices(e.EnabledTypes()) + [AllChoice];
  }

  /** The blank entry comes first and the all-types entry last, with one
      entry per enabled type between them, in the fixed order. */
  lemma EventChoicesShape(e: Event)
    ensures var c := EventChoices(e);
      && |c| == e.EnabledCount() + 2
      && c[0] == BlankChoice && c[|c| - 1] == AllChoice
      && (forall i :: 0 < i < |c| - 1 ==> c[i] == TypeChoice(e.EnabledTypes()[i - 1]))
      && (forall i, j :: 0 < i < j < |c| - 1 ==> Rank(FromCode(c[i].value).value) < Rank(FromCode(c[j].value).value))
  {
    var c := EventChoices(e);
    var ts := e.EnabledTypes();
    forall i | 0 < i < |c| - 1
      ensures c[i] == TypeChoice(ts[i - 1]) && FromCode(c[i].value) == Some(ts[i - 1])
    {
      assert c[i] == TypeChoices(ts)[i - 1];
    }
  }

  /** A type is offered exactly when the event enables it; the blank and the
      all-types entries are always offered. */
  lemma EventChoicesOffered(e: Event, t: ScanType)
    ensures TypeChoice(t) in EventChoices(e) <==> e.Enabled(t)
    ensures BlankChoice in EventChoices(e) && AllChoice in EventChoices(e)
  {
    if e.Enabled(t) {
      OfferedIfEnabled(e, t);
    }
    if TypeChoice(t) in EventChoices(e) {
      EnabledIfOffered(e, t);
    }
    var c := EventChoices(e);
    assert c[0] == BlankChoice && c[|c| - 1] == AllChoice;
  }

  lemma OfferedIfEnabled(e: Event, t: ScanType)
    requires e.Enabled(t)
    ensures TypeChoice(t) in EventChoices(e)
  {
    var ts := e.EnabledTypes();
    var i :| 0 <= i < |ts| && ts[i] == t;
    assert EventChoices(e)[i + 1] == TypeChoices(ts)[i];
  }

  lemma EnabledIfOffered(e: Event, t: ScanType)
    requires TypeChoice(t) in EventChoices(e)
    ensures e.Enabled(t)
  {
    var c := EventChoices(e);
    var ts := e.EnabledTypes();
    var i :| 0 <= i < |c| && c[i] == TypeChoice(t);
    assert i != 0 && i != |c| - 1 by {
      assert Code(t) != "" && Code(t) != AllCode;
    }
    assert c[i] == TypeChoices(ts)[i - 1] == TypeChoice(ts[i - 1]);
    assert FromCode(Code(t)) == Some(ts[i - 1]);
  }
}
