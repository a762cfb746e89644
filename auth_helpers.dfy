/** The template filters of the authentication helpers: equality, indexing
    into a list or a dictionary, first characters and display names. The
    dynamically typed template values they receive are modelled by a small
    value type. */
module AuthHelpers {
  import opened Common

  /** A template value: `None`, a string, an integer or a boolean. */
  datatype Value = Null | Text(s: string) | Number(n: int) | Flag(b: bool)

  /** Python truthiness of a value. */
  predicate Truthy(v: Value)
  {
    match v
    case Null => false
    case Text(s) => s != []
    case Number(n) => n != 0
    case Flag(b) => b
  }

  /** `str(value)`. */
  function Str(v: Value): (r: string)
    ensures Truthy(v) ==> r != []
  {
    match v
    case Null => "None"
    case Text(s) => s
    case Number(n) => IntToString(n)
    case Flag(b) => if b then "True" else "False"
  }

  /** The number a value stands for in a numeric comparison: Python's
      `bool` is a subclass of `int`, so `True` and `False` are 1 and 0. */
  function NumericValue(v: Value): Option<int>
  {
    match v
    case Number(n) => Some(n)
    case Flag(b) => Some(if b then 1 else 0)
    case _ => None
  }

  /** `equals`: Python's `value == arg` on template values. Strings compare
      by contents, `None` equals only `None`, and integers and booleans
      compare as numbers. */
  function Equals(value: Value, arg: Value): bool
  {
    match (value, arg)
    case (Null, Null) => true
    case (Text(s), Text(t)) => s == t
    case _ => NumericValue(value).Some? && NumericValue(value) == NumericValue(arg)
  }

  /** The filter is an equivalence relation. */
  lemma EqualsIsEquivalence(a: Value, b: Value, c: Value)
    ensures Equals(a, a)
    ensures Equals(a, b) <==> Equals(b, a)
    ensures Equals(a, b) && Equals(b, c) ==> Equals(a, c)
  {
  }

  /** Case by case: values of the same kind are equal exactly when they are
      the same; an integer equals a boolean exactly when it is that boolean's
      0 or 1; a string or `None` never equals a value of another kind. */
  lemma EqualsCases(a: Value, b: Value)
    ensures (a.Text? && b.Text?) || (a.Number? && b.Number?) || (a.Flag? && b.Flag?) || (a.Null? && b.Null?)
            ==> (Equals(a, b) <==> a == b)
    ensures a.Number? && b.Flag? ==> (Equals(a, b) <==> a.n == if b.b then 1 else 0)
    ensures a.Text? && !b.Text? ==> !Equals(a, b)
    ensures a.Null? && !b.Null? ==> !Equals(a, b)
    ensures Equals(Number(1), Flag(true)) && Equals(Number(0), Flag(false))
    ensures !Equals(Text("1"), Number(1)) && !Equals(Null, Flag(false))
  {
  }

  /** Equal values are equal as numbers whenever either is numeric, so
      numeric equality agrees with `ToInt` on integers and booleans. */
  lemma EqualsNumeric(a: Value, b: Value)
    requires Equals(a, b) && NumericValue(a).Some?
    ensures ToInt(a) == ToInt(b) && ToInt(a) == NumericValue(a)
  {
  }

  // ---------------------------------------------------------------------
  // `get_item`.
  // ---------------------------------------------------------------------

  /** What `get_item` is applied to: a dictionary with string keys, a list
      (or tuple), or anything else. */
  datatype Container = Dict(entries: map<string, Value>) | List(items: seq<Value>) | Scalar(v: Value)

  /** One or more decimal digits. */
  predicate AllDigits(t: string)
  {
    t != [] && forall i :: 0 <= i < |t| ==> '0' <= t[i] <= '9'
  }

  /** `int(s)` for a string: optional surrounding whitespace, an optional
      sign, then one or more decimal digits. */
  function ParseInt(s: string): (r: Option<int>)
  {
    ParseSigned(Strip(s))
  }

  /** `int` of an already stripped string. */
  function ParseSigned(t: string): Option<int>
  {
    if t != [] && (t[0] == '-' || t[0] == '+') then
      if AllDigits(t[1..]) then Some(if t[0] == '-' then -DecimalValue(t[1..]) else DecimalValue(t[1..])) else None
    else if AllDigits(t) then Some(DecimalValue(t))
    else None
  }

  /** `int(index)`: an integer is itself, a boolean counts as 0 or 1, a
      string is parsed, `None` raises `TypeError`. */
  function ToInt(index: Value): Option<int>
  {
    match index
    case Null => None
    case Text(s) => ParseInt(s)
    case Number(n) => Some(n)
    case Flag(b) => Some(if b then 1 else 0)
  }

  /** `get_item`: a dictionary is looked up by `str(index)`, a list by
      `int(index)` within bounds; everything else, and every error, gives
      `None`. The outer `Option` is the filter's `None`. */
  function GetItem(c: Container, index: Value): (r: Option<Value>)
    ensures c.Dict? ==> (r.Some? <==> Str(index) in c.entries)
    ensures c.Dict? && r.Some? ==> r.value == c.entries[Str(index)]
    ensures c.List? ==> (r.Some? <==> ToInt(index).Some? && 0 <= ToInt(index).value < |c.items|)
    ensures c.List? && r.Some? ==> r.value == c.items[ToInt(index).value]
    ensures c.Scalar? ==> r.None?
  {
    match c
    case Dict(entries) => if Str(index) in entries then Some(entries[Str(index)]) else None
    case List(items) =>
      var i := ToInt(index);
      if i.Some? && 0 <= i.value < |items| then Some(items[i.value]) else None
    case Scalar(_) => None
  }

  lemma ParseUnsigned(m: nat)
    ensures ParseInt(IntToString(m)) == Some(m)
  {
    var t := NatToString(m);
    assert IntToString(m) == t;
    ParseUnpadded(t);
    NatToStringValue(m);
  }

  lemma ParseNegative(m: nat)
    requires m > 0
    ensures ParseInt(IntToString(-(m as int))) == Some(-(m as int))
  {
    var t := NatToString(m);
    var s := "-" + t;
    assert IntToString(-(m as int)) == s;
    assert s[|s| - 1] == t[|t| - 1];
    ParseUnpadded(s);
    NatToStringValue(m);
    ParseMinus(t);
  }

  /** A string with no whitespace at either end parses as it stands. */
  lemma ParseUnpadded(s: string)
    requires s != [] && !IsSpace(s[0]) && !IsSpace(s[|s| - 1])
    ensures ParseInt(s) == ParseSigned(s)
  {
    StripUnpadded(s);
  }

  /** A minus sign before digits reads as the negated value. */
  lemma ParseMinus(t: string)
    requires AllDigits(t)
    ensures ParseSigned("-" + t) == Some(-DecimalValue(t))
  {
    assert ("-" + t)[1..] == t;
  }

  /** A decimal string parses back to its integer, so integer and string
      indices agree on lists. */
  lemma ParseIntOfStr(n: int)
    ensures ParseInt(IntToString(n)) == Some(n)
  {
    if n < 0 {
      ParseNegative(-n);
    } else {
      ParseUnsigned(n);
    }
  }

  /** On a list, the index `n` and its decimal string select the same item. */
  lemma GetItemTextIndex(items: seq<Value>, n: int)
    ensures GetItem(List(items), Text(IntToString(n))) == GetItem(List(items), Number(n))
  {
    ParseIntOfStr(n);
  }

  /** On a dictionary, distinct integer indices look up distinct keys. */
  lemma GetItemDistinctKeys(a: int, b: int)
    requires a != b
    ensures Str(Number(a)) != Str(Number(b))
  {
    if Str(Number(a)) == Str(Number(b)) {
      IntToStringInjective(a, b);
    }
  }

  // ---------------------------------------------------------------------
  // First characters and names.
  // ---------------------------------------------------------------------

  /** `first_char`: the first character of `str(value)` for a truthy value, else `''`. */
  function FirstChar(value: Value): (r: string)
    ensures Truthy(value) ==> |r| == 1 && r[0] == Str(value)[0]
    ensures !Truthy(value) ==> r == ""
  {
    if Truthy(value) then [Str(value)[0]] else ""
  }

  /** The fields of a user the name filters read; `None` stands for a
      missing (falsy) user. */
  datatype UserNames = UserNames(firstName: string, lastName: string, username: string)

  /** `get_initials`: the upper-cased first character of the first name,
      else of the username, else nothing. */
  function GetInitials(user: Option<UserNames>): (r: string)
    ensures |r| <= 1
    ensures user.None? ==> r == ""
    ensures user.Some? && user.value.firstName != [] ==> r == [UpperChar(user.value.firstName[0])]
    ensures user.Some? && user.value.firstName == [] && user.value.username != []
            ==> r == [UpperChar(user.value.username[0])]
    ensures user.Some? && user.value.firstName == [] && user.value.username == [] ==> r == ""
  {
    if user.None? then ""
    else if user.value.firstName != [] then Upper([user.value.firstName[0]])
    else if user.value.username != [] then Upper([user.value.username[0]])
    else ""
  }

  /** Django's `get_full_name`: the first and last names joined by a space, stripped. */
  function FullName(u: UserNames): string
  {
    Strip(u.firstName + " " + u.lastName)
  }

  /** `get_display_name`: the full name when it is not blank, else the
      username (which may itself be empty). */
  function GetDisplayName(user: Option<UserNames>): (r: string)
    ensures user.None? ==> r == ""
    ensures user.Some? && FullName(user.value) != [] ==> r == FullName(user.value)
    ensures user.Some? && FullName(user.value) == [] ==> r == user.value.username
  {
    if user.None? then ""
    else
      var fullName := FullName(user.value);
      if fullName != [] && Strip(fullName) != [] then fullName
      else if user.value.username != [] then user.value.username
      else ""
  }

  /** A display name taken from the full name has no surrounding whitespace. */
  lemma DisplayNameTrimmed(user: UserNames)
    requires FullName(user) != []
    ensures var r := GetDisplayName(Some(user));
      !IsSpace(r[0]) && !IsSpace(r[|r| - 1])
  {
  }

  /** Whitespace-only names fall back to the username. */
  lemma BlankNamesShowUsername(user: UserNames)
    requires forall i :: 0 <= i < |user.firstName| ==> IsSpace(user.firstName[i])
    requires forall i :: 0 <= i < |user.lastName| ==> IsSpace(user.lastName[i])
    ensures GetDisplayName(Some(user)) == user.username
  {
    var joined := user.firstName + " " + user.lastName;
    assert forall i :: 0 <= i < |joined| ==> IsSpace(joined[i]);
    BlankStripsToEmpty(joined);
  }

  lemma BlankStripsToEmpty(s: string)
    requires forall i :: 0 <= i < |s| ==> IsSpace(s[i])
    ensures Strip(s) == []
  {
  }
}
