/** Shared vocabulary of the attendance model: optional values, the integer
    timeline that stands for Python's date/datetime/time values, and the few
    string primitives (whitespace, ASCII case mapping, splitting, decimal
    rendering) that the views and template filters rely on. */
module Common {

  datatype Option<T> = None | Some(value: T)

  // ---------------------------------------------------------------------
  // Time. An instant is a number of seconds, a date is a day number and a
  // time of day is a number of seconds since midnight.
  // ---------------------------------------------------------------------

  const SecondsPerDay: int := 86400
  const SecondsPerHour: int := 3600
  /** 23:59:59, the default end of day used by the source. */
  const EndOfDay: int := 86399

  type TimeOfDay = t: int | 0 <= t < 86400

  /** `datetime.combine(date, time)`. */
  function Combine(date: int, t: TimeOfDay): (instant: int)
    ensures DateOf(instant) == date && TimeOf(instant) == t
    ensures date * SecondsPerDay <= instant < (date + 1) * SecondsPerDay
  {
    date * SecondsPerDay + t
  }

  /** `instant.date()`. Euclidean division with a positive divisor is floor division. */
  function DateOf(instant: int): int
  {
    instant / SecondsPerDay
  }

  /** `instant.time()`. */
  function TimeOf(instant: int): TimeOfDay
  {
    instant % SecondsPerDay
  }

  /** `instant.hour`. */
  function HourOf(instant: int): (h: int)
    ensures 0 <= h < 24
  {
    TimeOf(instant) / SecondsPerHour
  }

  // ---------------------------------------------------------------------
  // Strings (`str` is `seq<char>`).
  // ---------------------------------------------------------------------

  /** The ASCII characters for which Python's `str.isspace()` holds. */
  predicate IsSpace(c: char)
  {
    c == ' ' || c == '\t' || c == '\n' || c == '\r' || c == '\U{0B}' || c == '\U{0C}'
    || c == '\U{1C}' || c == '\U{1D}' || c == '\U{1E}' || c == '\U{1F}'
  }

  function TrimLeft(s: string): (r: string)
    ensures |r| <= |s| && r == s[|s| - |r|..]
    ensures r == [] || !IsSpace(r[0])
    ensures forall i :: 0 <= i < |s| - |r| ==> IsSpace(s[i])
  {
    if s == [] || !IsSpace(s[0]) then s else TrimLeft(s[1..])
  }

  function TrimRight(s: string): (r: string)
    ensures |r| <= |s| && r == s[..|r|]
    ensures r == [] || !IsSpace(r[|r| - 1])
    ensures forall i :: |r| <= i < |s| ==> IsSpace(s[i])
  {
    if s == [] || !IsSpace(s[|s| - 1]) then s else TrimRight(s[..|s| - 1])
  }

  /** `r` is `s[i..i + |r|]` and everything of `s` around it is whitespace. */
  predicate StrippedAt(s: string, r: string, i: int)
  {
    0 <= i <= |s| - |r| && r == s[i..i + |r|]
    && (forall k :: 0 <= k < i ==> IsSpace(s[k]))
    && (forall k :: i + |r| <= k < |s| ==> IsSpace(s[k]))
  }

  /** `s.strip()`: the slice of `s` left after dropping leading and trailing whitespace. */
  function Strip(s: string): (r: string)
    ensures r == [] || (!IsSpace(r[0]) && !IsSpace(r[|r| - 1]))
    ensures exists i :: StrippedAt(s, r, i)
  {
    TrimBoth(s);
    TrimRight(TrimLeft(s))
  }

  lemma TrimBoth(s: string)
    ensures StrippedAt(s, TrimRight(TrimLeft(s)), |s| - |TrimLeft(s)|)
  {
    var l := TrimLeft(s);
    var i := |s| - |l|;
    TrimRightOfSuffix(s, l, i);
  }

  lemma TrimRightOfSuffix(s: string, l: string, i: int)
    requires 0 <= i <= |s| && l == s[i..]
    ensures var r := TrimRight(l);
            r == s[i..i + |r|] && forall k :: i + |r| <= k < |s| ==> IsSpace(s[k])
  {
    var r := TrimRight(l);
    forall k | i + |r| <= k < |s|
      ensures IsSpace(s[k])
    {
      assert s[k] == l[k - i];
    }
  }

  /** ASCII part of `str.upper()`. */
  function UpperChar(c: char): (u: char)
    ensures 'a' <= c <= 'z' ==> u as int == c as int - 32
    ensures !('a' <= c <= 'z') ==> u == c
  {
    if 'a' <= c <= 'z' then (c as int - 32) as char else c
  }

  function Upper(s: string): (r: string)
    ensures |r| == |s| && forall i :: 0 <= i < |s| ==> r[i] == UpperChar(s[i])
  {
    if s == [] then [] else [UpperChar(s[0])] + Upper(s[1..])
  }

  /** A string without lower-case letters is its own upper case. */
  lemma UpperWithoutLower(s: string)
    requires forall i :: 0 <= i < |s| ==> !('a' <= s[i] <= 'z')
    ensures Upper(s) == s
  {
  }

  /** Does `sep` occur in `s` at position `i`? */
  predicate OccursAt(s: string, sep: string, i: int)
  {
    0 <= i && i + |sep| <= |s| && s[i..i + |sep|] == sep
  }

  /** The first position at or after `from` where `sep` occurs. */
  function FindFrom(s: string, sep: string, from: nat): (r: Option<nat>)
    requires |sep| > 0
    ensures r.Some? ==> from <= r.value && OccursAt(s, sep, r.value)
    ensures r.Some? ==> forall j :: from <= j < r.value ==> !OccursAt(s, sep, j)
    ensures r.None? ==> forall j :: from <= j ==> !OccursAt(s, sep, j)
    decreases |s| - from
  {
    if from + |sep| > |s| then None
    else if s[from..from + |sep|] == sep then Some(from)
    else FindFrom(s, sep, from + 1)
  }

  /** `s.split(sep)` for a non-empty separator: the pieces between the
      non-overlapping occurrences of `sep`, scanning left to right. */
  function Split(s: string, sep: string): (parts: seq<string>)
    requires |sep| > 0
    ensures |parts| >= 1
    decreases |s|
  {
    match FindFrom(s, sep, 0)
    case None => [s]
    case Some(i) => [s[..i]] + Split(s[i + |sep|..], sep)
  }

  /** `a + sep + b` splits back into `[a, b]` when the only occurrence of
      `sep` that starts inside `a` is none at all and `b` holds no `sep`. */
  lemma {:induction false} SplitJoin(a: string, sep: string, b: string)
    requires |sep| > 0
    requires forall j :: 0 <= j < |a| ==> !OccursAt(a + sep + b, sep, j)
    requires forall j :: 0 <= j ==> !OccursAt(b, sep, j)
    ensures Split(a + sep + b, sep) == [a, b]
  {
    var s := a + sep + b;
    assert OccursAt(s, sep, |a|) by { assert s[|a|..|a| + |sep|] == sep; }
    assert FindFrom(s, sep, 0) == Some(|a|);
    assert s[..|a|] == a;
    assert s[|a| + |sep|..] == b;
    assert FindFrom(b, sep, 0).None?;
  }

  /** A string with no whitespace at either end is its own `strip()`. */
  lemma StripUnpadded(s: string)
    requires s != [] && !IsSpace(s[0]) && !IsSpace(s[|s| - 1])
    ensures Strip(s) == s
  {
    assert TrimLeft(s) == s;
    assert TrimRight(s) == s;
  }

  // ---------------------------------------------------------------------
  // Decimal rendering, `str(n)` for integers.
  // ---------------------------------------------------------------------

  function DigitChar(d: int): (c: char)
    requires 0 <= d < 10
    ensures '0' <= c <= '9'
  {
    ('0' as int + d) as char
  }

  function NatToString(n: nat): (s: string)
    ensures |s| >= 1 && forall i :: 0 <= i < |s| ==> '0' <= s[i] <= '9'
    decreases n
  {
    if n < 10 then [DigitChar(n)] else NatToString(n / 10) + [DigitChar(n % 10)]
  }

  function IntToString(i: int): string
  {
    if i < 0 then "-" + NatToString(-i) else NatToString(i)
  }

  /** The value of a string of decimal digits. */
  function DecimalValue(s: string): int
    requires forall i :: 0 <= i < |s| ==> '0' <= s[i] <= '9'
  {
    if s == [] then 0 else DecimalValue(s[..|s| - 1]) * 10 + (s[|s| - 1] as int - '0' as int)
  }

  lemma {:induction false} NatToStringValue(n: nat)
    ensures DecimalValue(NatToString(n)) == n
    decreases n
  {
    if n >= 10 {
      var s := NatToString(n);
      NatToStringValue(n / 10);
      assert s[..|s| - 1] == NatToString(n / 10);
    }
  }

  /** `str(i)` starts with a minus sign exactly for negative `i`. */
  lemma {:induction false} IntToStringSign(i: int)
    ensures |IntToString(i)| >= 1 && (IntToString(i)[0] == '-' <==> i < 0)
  {
    if i >= 0 {
      assert '0' <= NatToString(i)[0] <= '9';
    }
  }

  /** Distinct naturals have distinct decimal strings. */
  lemma NatToStringInjective(m: nat, n: nat)
    requires NatToString(m) == NatToString(n)
    ensures m == n
  {
    NatToStringValue(m);
    NatToStringValue(n);
  }

  /** `str` is injective on integers, so distinct indices name distinct dict keys. */
  lemma {:induction false} IntToStringInjective(a: int, b: int)
    requires IntToString(a) == IntToString(b)
    ensures a == b
  {
    IntToStringSign(a);
    IntToStringSign(b);
    if a < 0 {
      assert NatToString(-a) == IntToString(a)[1..] == IntToString(b)[1..] == NatToString(-b);
      NatToStringInjective(-a, -b);
    } else {
      NatToStringInjective(a, b);
    }
  }

  // ---------------------------------------------------------------------
  // `time.strftime('%I:%M %p')` and `datetime.strptime(s, '%I:%M %p')`.
  // ---------------------------------------------------------------------

  predicate IsDigit(c: char)
  {
    '0' <= c <= '9'
  }

  function TwoDigits(n: nat): (s: string)
    requires n < 100
    ensures |s| == 2 && IsDigit(s[0]) && IsDigit(s[1])
    ensures DecimalValue(s) == n
  {
    var s := [DigitChar(n / 10), DigitChar(n % 10)];
    assert s[..1] == [DigitChar(n / 10)] && s[..1][..0] == [];
    assert DecimalValue(s[..1]) == n / 10;
    s
  }

  /** The hour on a 12-hour clock (12 for midnight and noon). */
  function Hour12(t: TimeOfDay): (h: nat)
    ensures 1 <= h <= 12
  {
    if (t / SecondsPerHour) % 12 == 0 then 12 else (t / SecondsPerHour) % 12
  }

  /** Zero-padded 12-hour time with an AM/PM suffix, such as "07:05 PM". */
  function Format12(t: TimeOfDay): (s: string)
    ensures |s| == 8 && s[2] == ':' && s[5] == ' ' && s[7] == 'M'
    ensures s[6] == (if t < 12 * SecondsPerHour then 'A' else 'P')
    ensures forall j :: 0 <= j < 8 && j != 5 ==> !IsSpace(s[j])
  {
    TwoDigits(Hour12(t)) + ":" + TwoDigits((t % SecondsPerHour) / 60) + " "
      + (if t < 12 * SecondsPerHour then "AM" else "PM")
  }

  /** Width of the `%I` field at the head of `s` together with the colon that
      must follow it: two digits 10-12 or 01-09, or one digit 1-9; 0 if none fits. */
  function HourWidth(s: string): (w: nat)
    ensures w == 0 || (w < |s| && s[w] == ':' && forall j :: 0 <= j < w ==> IsDigit(s[j]))
  {
    if |s| >= 3 && s[2] == ':' && ((s[0] == '1' && '0' <= s[1] <= '2') || (s[0] == '0' && '1' <= s[1] <= '9')) then 2
    else if |s| >= 2 && s[1] == ':' && '1' <= s[0] <= '9' then 1
    else 0
  }

  /** Width of the `%M` field at the head of `r`: two digits 00-59, or one digit. */
  function MinuteWidth(r: string): (w: nat)
    ensures w <= |r| && forall j :: 0 <= j < w ==> IsDigit(r[j])
  {
    if |r| >= 2 && '0' <= r[0] <= '5' && IsDigit(r[1]) then 2
    else if |r| >= 1 && IsDigit(r[0]) then 1
    else 0
  }

  /** `%I` with `%p` to a 24-hour hour: 12 AM is 0, a PM hour other than 12 adds 12. */
  function To24(hour12: int, pm: bool): int
  {
    if pm then (if hour12 == 12 then 12 else hour12 + 12)
    else (if hour12 == 12 then 0 else hour12)
  }

  /** The `%p` field after the whitespace: `Some(true)` for PM, `Some(false)` for AM, in any case. */
  function Meridiem(rest: string): Option<bool>
  {
    var x := Upper(TrimLeft(rest));
    if x == "AM" then Some(false) else if x == "PM" then Some(true) else None
  }

  /** What follows the colon of `%I:%M %p`, given the already-read `%I` value. */
  function ParseAfterHour(hour12: int, r: string): (t: Option<TimeOfDay>)
  {
    var mw := MinuteWidth(r);
    if mw == 0 || mw == |r| || !IsSpace(r[mw]) then None
    else match Meridiem(r[mw..])
      case None => None
      case Some(pm) =>
        var hour := To24(hour12, pm);
        var minute := DecimalValue(r[..mw]);
        if 0 <= hour < 24 && 0 <= minute < 60 then Some(hour * SecondsPerHour + minute * 60) else None
  }

  /** `datetime.strptime(s, '%I:%M %p').time()`: the whole of `s` must match
      `%I`, a colon, `%M`, one or more whitespace characters and AM or PM in
      any case; `None` stands for the `ValueError`. */
  function Parse12(s: string): (r: Option<TimeOfDay>)
  {
    var hw := HourWidth(s);
    if hw == 0 then None else ParseAfterHour(DecimalValue(s[..hw]), s[hw + 1..])
  }

  lemma MeridiemOf(pm: bool)
    ensures Meridiem(" " + (if pm then "PM" else "AM")) == Some(pm)
  {
    var ap := if pm then "PM" else "AM";
    var s := " " + ap;
    assert IsSpace(s[0]);
    assert s[1..] == ap;
    assert !IsSpace(ap[0]);
    assert TrimLeft(ap) == ap;
    assert Upper(ap) == ap;
  }

  lemma ParseMinuteField(hour12: int, m: nat, pm: bool)
    requires m < 60 && 0 <= To24(hour12, pm) < 24
    ensures ParseAfterHour(hour12, TwoDigits(m) + " " + (if pm then "PM" else "AM"))
            == Some(To24(hour12, pm) * SecondsPerHour + m * 60)
  {
    var mm := TwoDigits(m);
    var rest := " " + (if pm then "PM" else "AM");
    var r := TwoDigits(m) + " " + (if pm then "PM" else "AM");
    assert r == mm + rest;
    assert r[..2] == mm;
    assert r[2..] == rest;
    assert MinuteWidth(r) == 2 by {
      assert r[0] == mm[0] && r[1] == mm[1];
    }
    assert IsSpace(r[2]);
    MeridiemOf(pm);
  }

  /** `strptime` reads back every string `strftime` produces from its fields. */
  lemma ParseFields(h: nat, m: nat, pm: bool)
    requires 1 <= h <= 12 && m < 60
    ensures Parse12(TwoDigits(h) + ":" + TwoDigits(m) + " " + (if pm then "PM" else "AM"))
            == Some(To24(h, pm) * SecondsPerHour + m * 60)
  {
    var hh := TwoDigits(h);
    var r := TwoDigits(m) + " " + (if pm then "PM" else "AM");
    var s := TwoDigits(h) + ":" + TwoDigits(m) + " " + (if pm then "PM" else "AM");
    assert s == hh + ":" + r;
    assert s[..2] == hh;
    assert s[3..] == r;
    assert HourWidth(s) == 2 by {
      assert s[0] == hh[0] && s[1] == hh[1] && s[2] == ':';
    }
    ParseMinuteField(h, m, pm);
  }

  /** The 12-hour clock and the AM/PM flag together give back the 24-hour hour. */
  lemma Hour12To24(t: TimeOfDay)
    ensures To24(Hour12(t), t >= 12 * SecondsPerHour) == t / SecondsPerHour
  {
    var hour := t / SecondsPerHour;
    assert 0 <= hour < 24;
    assert t >= 12 * SecondsPerHour <==> hour >= 12;
  }

  lemma TruncateToMinute(t: TimeOfDay)
    ensures (t / SecondsPerHour) * SecondsPerHour + ((t % SecondsPerHour) / 60) * 60 == t - t % 60
  {
    var q, r := t / 3600, t % 3600;
    assert t == q * 3600 + r;
    var m, x := r / 60, r % 60;
    assert r == m * 60 + x;
    assert t == (q * 60 + m) * 60 + x;
    assert t % 60 == x;
  }

  /** Parsing the rendering of a time gives it back, truncated to the minute. */
  lemma Format12Parse12(t: TimeOfDay)
    ensures Parse12(Format12(t)).Some? && Parse12(Format12(t)).value == t - t % 60
  {
    var h, m := Hour12(t), (t % SecondsPerHour) / 60;
    var pm := t >= 12 * SecondsPerHour;
    assert Format12(t) == TwoDigits(h) + ":" + TwoDigits(m) + " " + (if pm then "PM" else "AM");
    ParseFields(h, m, pm);
    assert To24(h, pm) * SecondsPerHour + m * 60 == t - t % 60 by {
      Hour12To24(t);
      TruncateToMinute(t);
    }
  }
}
