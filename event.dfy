/**
 * The calendar Event model: derived attributes, the attribute clean-up done
 * before a save, the option lists offered by the admin form, and the query
 * scopes, with the permission scope as a filter over a list of events.
 */
module EventModel {
  import opened Wrappers
  import opened Php
  import opened Calendar

  // ---------------------------------------------------------------------
  // Entities

  /** A category; `permissionId` is a nullable column. */
  datatype Category = Category(id: int, permissionId: Option<int>)

  /** A front-end user, as the user plugin stores it. */
  datatype User = User(id: int, name: string, surname: string)

  /** An event row with its owner and its categories already loaded. */
  datatype Event = Event(
    id: int,
    date: Date,
    time: Option<string>,
    name: string,
    isPublished: bool,
    user: Option<User>,
    categories: seq<Category>)

  /** Why a derived value or option list could not be produced. */
  datatype Error =
    | FormatError    // `time` is not hours and minutes separated by ':'
    | InvalidDate    // month or year rejected by the calendar library
    | CallOnString   // a method called on the empty string instead of a date object

  // ---------------------------------------------------------------------
  // Day, month and year attributes

  function Day(e: Event): (d: int)
    ensures ValidDate(e.date) ==> 1 <= d <= DaysInMonth(e.date.month, e.date.year)
  {
    e.date.day
  }

  function Month(e: Event): (m: int)
    ensures ValidDate(e.date) ==> 1 <= m <= 12
  {
    e.date.month
  }

  function Year(e: Event): (y: int)
    ensures ValidDate(e.date) ==> y >= 1
  {
    e.date.year
  }

  // ---------------------------------------------------------------------
  // carbon_time

  /** The ':'-separated fields of a time string. */
  function TimeFields(time: string): (fields: seq<string>)
    ensures |fields| >= 1 && Implode(':', fields) == time
  {
    ImplodeExplode(':', time);
    Explode(':', time)
  }

  /** Hour and minute read from the first two fields of a time string. */
  function ParseTime(time: string): (r: Result<(nat, nat), Error>)
    ensures r.Ok? ==> |TimeFields(time)| >= 2
    ensures r.Ok? ==> ParseNat(TimeFields(time)[0]) == Some(r.value.0) && r.value.0 <= 23
    ensures r.Ok? ==> ParseNat(TimeFields(time)[1]) == Some(r.value.1) && r.value.1 <= 59
    ensures |TimeFields(time)| < 2 ==> r == Err(FormatError)
    ensures
      var fields := TimeFields(time);
      (&& |fields| >= 2
       && ParseNat(fields[0]).Some? && ParseNat(fields[0]).value <= 23
       && ParseNat(fields[1]).Some? && ParseNat(fields[1]).value <= 59)
      ==> r.Ok?
    ensures r.Err? ==> r.error == FormatError
  {
    var fields := TimeFields(time);
    if |fields| < 2 then Err(FormatError)
    else match (ParseNat(fields[0]), ParseNat(fields[1]))
      case (Some(h), Some(m)) =>
        if h <= 23 && m <= 59 then Ok((h, m)) else Err(FormatError)
      case _ => Err(FormatError)
  }

  /** The value of `carbon_time`: no time at all, or a date-time. */
  datatype CarbonTime = NoTime | At(moment: DateTime)

  /**
   * `carbon_time` for an event whose date reads as `date`: no time when
   * `time` is falsy, otherwise `date` with its hour and minute replaced by
   * the two fields of `time`.
   */
  function CarbonTimeOf(date: DateTime, time: Option<string>): (r: Result<CarbonTime, Error>)
    ensures r == Ok(NoTime) <==> !OptStringTruthy(time)
    ensures r.Ok? && r.value.At? ==>
      var m := r.value.moment;
      var fields := TimeFields(time.value);
      && m.date == date.date && m.second == date.second
      && |fields| >= 2
      && 0 <= m.hour <= 23 && ParseNat(fields[0]) == Some(m.hour as nat)
      && 0 <= m.minute <= 59 && ParseNat(fields[1]) == Some(m.minute as nat)
    ensures OptStringTruthy(time) && |TimeFields(time.value)| < 2 ==> r == Err(FormatError)
    ensures OptStringTruthy(time) && ParseTime(time.value).Ok? ==> r.Ok? && r.value.At?
    ensures OptStringTruthy(time) && ParseTime(time.value).Err? ==> r == Err(FormatError)
  {
    if !OptStringTruthy(time) then Ok(NoTime)
    else match ParseTime(time.value)
      case Err(e) => Err(e)
      case Ok((h, m)) => Ok(At(date.(hour := h, minute := m)))
  }

  /** Writes `n` (below 100) as two decimal digits. */
  function TwoDigits(n: int): (s: string)
    requires 0 <= n < 100
    ensures |s| == 2 && IsDigit(s[0]) && IsDigit(s[1])
  {
    [('0' as int + n / 10) as char, ('0' as int + n % 10) as char]
  }

  lemma ParseTwoDigits(n: int)
    requires 0 <= n < 100
    ensures ParseNat(TwoDigits(n)) == Some(n as nat)
  {
    var s := TwoDigits(n);
    assert s[..1] == [s[0]];
  }

  /**
   * A time written "HH:MM", optionally followed by ":SS" as a TIME column
   * reads, gives back its hour and minute on the event's date.
   */
  lemma {:induction false} CarbonTimeRoundTrip(date: DateTime, h: int, m: int, rest: seq<string>)
    requires 0 <= h <= 23 && 0 <= m <= 59
    requires forall i :: 0 <= i < |rest| ==> ':' !in rest[i]
    ensures
      var time := Implode(':', [TwoDigits(h), TwoDigits(m)] + rest);
      CarbonTimeOf(date, Some(time)) == Ok(At(date.(hour := h, minute := m)))
  {
    var fields := [TwoDigits(h), TwoDigits(m)] + rest;
    assert forall i :: 0 <= i < |fields| ==> ':' !in fields[i] by {
      forall i | 0 <= i < |fields| ensures ':' !in fields[i] {
        if i >= 2 { assert fields[i] == rest[i - 2]; }
      }
    }
    ExplodeImplode(':', fields);
    var time := Implode(':', fields);
    assert TimeFields(time) == fields;
    ParseTwoDigits(h);
    ParseTwoDigits(m);
    assert time == TwoDigits(h) + [':'] + Implode(':', fields[1..]);
    assert time[0] == TwoDigits(h)[0];
    assert StringTruthy(time) by {
      assert time[0] != '0' || |time| > 1;
    }
  }

  /** The example of a stored 14:30 on 15 March 2024. */
  lemma CarbonTimeExample()
    ensures CarbonTimeOf(StartOfDay(Date(2024, 3, 15)), Some("14:30")) ==
            Ok(At(DateTime(Date(2024, 3, 15), 14, 30, 0)))
  {
    CarbonTimeRoundTrip(StartOfDay(Date(2024, 3, 15)), 14, 30, []);
    assert Implode(':', [TwoDigits(14), TwoDigits(30)]) == "14:30";
  }

  /** An hour written with one digit is read the same way. */
  lemma CarbonTimeSingleDigitHour(date: DateTime)
    ensures CarbonTimeOf(date, Some("9:05")) == Ok(At(date.(hour := 9, minute := 5)))
  {
    ExplodeImplode(':', ["9", "05"]);
    assert Implode(':', ["9", "05"]) == "9:05";
    assert ParseNat("05") == Some(5) by {
      assert "05"[..1] == "0";
    }
  }

  /** What `getCarbonTimeAttribute` hands back. */
  datatype CarbonSlot = EmptyTime | Carbon(moment: Moment) | Failed(error: Error)

  /**
   * `getCarbonTimeAttribute`: copies the event's date object and sets the
   * copy's hour and minute from `time`; the date object itself is left as
   * it was.
   */
  method GetCarbonTime(date: Moment, time: Option<string>) returns (r: CarbonSlot)
    ensures r.EmptyTime? <==> CarbonTimeOf(date.Value(), time) == Ok(NoTime)
    ensures r.Carbon? ==> fresh(r.moment) && CarbonTimeOf(date.Value(), time) == Ok(At(r.moment.Value()))
    ensures r.Failed? ==> CarbonTimeOf(date.Value(), time) == Err(r.error)
  {
    if !OptStringTruthy(time) {
      return EmptyTime;
    }
    match ParseTime(time.value)
    case Err(e) =>
      r := Failed(e);
    case Ok((h, m)) =>
      var t := date.Copy();
      t.SetHour(h);
      t.SetMinute(m);
      r := Carbon(t);
  }

  // ---------------------------------------------------------------------
  // human_time

  /**
   * `getHumanTimeAttribute` as written: guarded by `isset($this->time)`,
   * which holds for any non-null time, while `carbon_time` is empty for
   * every falsy time; `format` renders a date-time with the configured
   * pattern.
   */
  function HumanTimeAsWritten(e: Event, format: DateTime -> string): (r: Result<string, Error>)
    ensures e.time.None? ==> r == Ok("")
    ensures e.time.Some? && !OptStringTruthy(e.time) ==> r == Err(CallOnString)
    ensures OptStringTruthy(e.time) ==>
      match CarbonTimeOf(StartOfDay(e.date), e.time)
      case Ok(c) => c.At? && r == Ok(format(c.moment))
      case Err(x) => r == Err(x)
  {
    if e.time.Some? then
      match CarbonTimeOf(StartOfDay(e.date), e.time)
      case Ok(At(m)) => Ok(format(m))
      case Ok(NoTime) => Err(CallOnString)
      case Err(x) => Err(x)
    else Ok("")
  }

  /** A set but empty time makes the as-written getter call `format` on ''. */
  lemma HumanTimeAsWrittenFailsOnEmptyTime(e: Event, format: DateTime -> string)
    requires e.time == Some("") || e.time == Some("0")
    ensures HumanTimeAsWritten(e, format) == Err(CallOnString)
  {
  }

  /**
   * `human_time` with the guard `carbon_time` itself uses: empty exactly
   * when there is no time, the formatted date-time when there is one.
   */
  function HumanTime(e: Event, format: DateTime -> string): (r: Result<string, Error>)
    ensures !OptStringTruthy(e.time) ==> r == Ok("")
    ensures OptStringTruthy(e.time) ==>
      match CarbonTimeOf(StartOfDay(e.date), e.time)
      case Ok(c) => c.At? && r == Ok(format(c.moment))
      case Err(x) => r == Err(x)
    ensures r != Err(CallOnString)
  {
    match CarbonTimeOf(StartOfDay(e.date), e.time)
    case Ok(NoTime) => Ok("")
    case Ok(At(m)) => Ok(format(m))
    case Err(x) => Err(x)
  }

  /** The corrected getter agrees with the original wherever the original succeeds. */
  lemma HumanTimeAgrees(e: Event, format: DateTime -> string)
    requires HumanTimeAsWritten(e, format).Ok?
    ensures HumanTime(e, format) == HumanTimeAsWritten(e, format)
  {
  }

  // ---------------------------------------------------------------------
  // owner_name

  /**
   * `owner_name`: the owner's given name, a space, then the surname; empty
   * when the user plugin is missing or the event has no owner.
   */
  function OwnerName(userPluginInstalled: bool, user: Option<User>): (r: string)
    ensures !userPluginInstalled || user.None? ==> r == ""
    ensures userPluginInstalled && user.Some? ==>
      var u := user.value;
      && |r| == |u.name| + 1 + |u.surname|
      && r[..|u.name|] == u.name
      && r[|u.name|] == ' '
      && r[|u.name| + 1..] == u.surname
  {
    if userPluginInstalled && user.Some? then user.value.name + " " + user.value.surname
    else ""
  }

  // ---------------------------------------------------------------------
  // beforeSave

  /** The derived attributes the model must not write to its table. */
  const DerivedKeys: set<string> := {"human_time", "owner_name", "carbon_time"}

  /**
   * The attribute defaults every new Event starts with: zero for the date
   * parts, the empty string for each derived attribute.
   */
  function DefaultAttributes(): (r: map<string, Value>)
    ensures r.Keys == DerivedKeys + {"day", "month", "year"}
    ensures forall k :: k in DerivedKeys ==> r[k] == Str("")
    ensures forall k :: k in r && k !in DerivedKeys ==> r[k] == Int(0)
  {
    map["day" := Int(0), "month" := Int(0), "year" := Int(0),
        "human_time" := Str(""), "carbon_time" := Str(""), "owner_name" := Str("")]
  }

  /**
   * The attributes left for the save: all but the derived ones, unchanged.
   * This holds whatever the attribute values are.
   */
  function Persisted<V>(attributes: map<string, V>): (r: map<string, V>)
    ensures forall k :: k in r <==> k in attributes && k !in DerivedKeys
    ensures forall k :: k in r ==> r[k] == attributes[k]
  {
    attributes - DerivedKeys
  }

  /** Clearing the derived attributes a second time changes nothing. */
  lemma PersistedIdempotent<V>(attributes: map<string, V>)
    ensures Persisted(Persisted(attributes)) == Persisted(attributes)
  {
  }

  /** From the defaults only the day, month and year placeholders are kept. */
  lemma PersistedDefaults()
    ensures Persisted(DefaultAttributes()) == map["day" := Int(0), "month" := Int(0), "year" := Int(0)]
  {
  }

  /**
   * An Event record's attribute array, updated in place. Only the
   * attributes this model touches are represented; each holds an integer
   * or a string (a date column sits there as its stored string).
   */
  class EventRecord {
    var attributes: map<string, Value>

    constructor ()
      ensures attributes == DefaultAttributes()
    {
      attributes := DefaultAttributes();
    }

    /** `beforeSave`: unsets the three derived attributes. */
    method BeforeSave()
      modifies this
      ensures attributes == Persisted(old(attributes))
      ensures forall k :: k in old(attributes) && k !in DerivedKeys ==> k in attributes && attributes[k] == old(attributes)[k]
    {
      attributes := attributes - {"human_time"};
      attributes := attributes - {"owner_name"};
      attributes := attributes - {"carbon_time"};
    }
  }

  // ---------------------------------------------------------------------
  // Option lists of the admin form

  const PickMonthAndYear: string := "Pick a Month AND Year"

  /**
   * `getDayOptions`: with a month and a year set, each day of that month
   * keyed by itself; otherwise a single placeholder under key 0.
   */
  function DayOptions(month: int, year: int): (r: Result<seq<Entry>, Error>)
    ensures !IntTruthy(month) || !IntTruthy(year) ==> r == Ok([Entry(0, Str(PickMonthAndYear))])
    ensures IntTruthy(month) && IntTruthy(year) && (month < 1 || month > 12 || year < 1) ==> r == Err(InvalidDate)
    ensures 1 <= month <= 12 && year >= 1 ==>
      r.Ok? && |r.value| == DaysInMonth(month, year) &&
      forall i :: 0 <= i < |r.value| ==> r.value[i] == Entry(i + 1, Int(i + 1))
  {
    if IntTruthy(month) && IntTruthy(year) then
      if 1 <= month <= 12 && year >= 1 then
        var days := Range(1, DaysInMonth(month, year));
        assert NoDuplicates(days);
        CombineDistinct(days, IntValues(days));
        Ok(Combine(days, IntValues(days)))
      else Err(InvalidDate)
    else Ok([Entry(0, Str(PickMonthAndYear))])
  }

  /** February has 29 day options exactly in Gregorian leap years, otherwise 28. */
  lemma FebruaryOptions(year: int)
    requires year >= 1
    ensures DayOptions(2, year).Ok?
    ensures |DayOptions(2, year).value| == if IsLeapYear(year) then 29 else 28
  {
  }

  /** 2024 and 2000 are leap years; 2023 and the century year 1900 are not. */
  lemma LeapYearExamples()
    ensures IsLeapYear(2024) && IsLeapYear(2000)
    ensures !IsLeapYear(2023) && !IsLeapYear(1900)
  {
  }

  /** The month names, with a dummy entry at index 0. */
  const MonthNames: seq<string> :=
    ["0", "January", "February", "March", "April", "May", "June", "July",
     "August", "September", "October", "November", "December"]

  /** A PHP list literal: each element keyed by its position. */
  function ListArray(xs: seq<string>): (a: seq<Entry>)
    ensures |a| == |xs| && forall i :: 0 <= i < |xs| ==> a[i] == Entry(i, Str(xs[i]))
  {
    seq(|xs|, i requires 0 <= i < |xs| => Entry(i, Str(xs[i])))
  }

  /** `unset` of a key that is absent leaves the array as it was. */
  lemma {:induction false} UnsetAbsent(a: seq<Entry>, k: int)
    requires k !in Keys(a)
    ensures Unset(a, k) == a
  {
    if a != [] {
      assert Keys(a) == [a[0].key] + Keys(a[1..]);
      UnsetAbsent(a[1..], k);
    }
  }

  /** `getMonthOptions`: months 1 to 12 keyed by their number, in order. */
  function MonthOptions(): (r: seq<Entry>)
    ensures |r| == 12
    ensures forall i :: 0 <= i < 12 ==> r[i] == Entry(i + 1, Str(MonthNames[i + 1]))
  {
    var months := ListArray(MonthNames);
    assert 0 !in Keys(months[1..]);
    UnsetAbsent(months[1..], 0);
    Unset(months, 0)
  }

  /** `getYearOptions`: the current year and the five after it, each keyed by itself. */
  function YearOptions(currentYear: int): (r: seq<Entry>)
    ensures |r| == 6
    ensures forall i :: 0 <= i < 6 ==> r[i] == Entry(currentYear + i, Int(currentYear + i))
  {
    var years := Range(currentYear, currentYear + 5);
    assert NoDuplicates(years);
    CombineDistinct(years, IntValues(years));
    Combine(years, IntValues(years))
  }

  /** The day and month of every valid event date are among the offered options. */
  lemma DateIsOffered(e: Event)
    requires ValidDate(e.date)
    ensures DayOptions(Month(e), Year(e)).Ok?
    ensures Lookup(DayOptions(Month(e), Year(e)).value, Day(e)) == Some(Int(Day(e)))
    ensures Lookup(MonthOptions(), Month(e)) == Some(Str(MonthNames[Month(e)]))
  {
    var days := DayOptions(Month(e), Year(e)).value;
    LookupAt(days, Day(e) - 1);
    LookupAt(MonthOptions(), Month(e) - 1);
  }

  /** In an array whose keys are distinct, a slot's key finds that slot's value. */
  lemma {:induction false} LookupAt(a: seq<Entry>, i: nat)
    requires i < |a|
    requires forall j :: 0 <= j < i ==> a[j].key != a[i].key
    ensures Lookup(a, a[i].key) == Some(a[i].value)
  {
    if i > 0 {
      LookupAt(a[1..], i - 1);
    }
  }

  /** The label `getUserIdOptions` shows for a user: surname, comma, given name. */
  function UserLabel(u: User): (s: string)
    ensures |s| == |u.surname| + 2 + |u.name|
    ensures s[..|u.surname|] == u.surname && s[|u.surname|..|u.surname| + 2] == ", "
    ensures s[|u.surname| + 2..] == u.name
  {
    u.surname + ", " + u.name
  }

  function UserIds(users: seq<User>): (ids: seq<int>)
    ensures |ids| == |users| && forall i :: 0 <= i < |users| ==> ids[i] == users[i].id
  {
    seq(|users|, i requires 0 <= i < |users| => users[i].id)
  }

  function UserLabels(users: seq<User>): (labels: seq<Value>)
    ensures |labels| == |users| && forall i :: 0 <= i < |users| ==> labels[i] == Str(UserLabel(users[i]))
  {
    seq(|users|, i requires 0 <= i < |users| => Str(UserLabel(users[i])))
  }

  const UserPluginMissing: string := "Rainlab User Model Not Installed"

  /**
   * `getUserIdOptions`: with the user plugin present, each user's label
   * stored under the user's id, in the order the users come (sorted by
   * surname, then given name); otherwise a single notice under key 0.
   */
  method UserIdOptions(userPluginInstalled: bool, users: seq<User>) returns (r: seq<Entry>)
    ensures !userPluginInstalled ==> r == [Entry(0, Str(UserPluginMissing))]
    ensures userPluginInstalled ==> r == Combine(UserIds(users), UserLabels(users))
  {
    if !userPluginInstalled {
      return [Entry(0, Str(UserPluginMissing))];
    }
    r := [];
    for i := 0 to |users|
      invariant r == Combine(UserIds(users[..i]), UserLabels(users[..i]))
    {
      assert UserIds(users[..i + 1])[..i] == UserIds(users[..i]);
      assert UserLabels(users[..i + 1])[..i] == UserLabels(users[..i]);
      r := Assign(r, users[i].id, Str(UserLabel(users[i])));
    }
    assert users[..|users|] == users;
  }

  /** Users with distinct ids give one option each, in their order. */
  lemma UserOptionsDistinct(users: seq<User>)
    requires NoDuplicates(UserIds(users))
    ensures var r := Combine(UserIds(users), UserLabels(users));
      |r| == |users| &&
      forall i :: 0 <= i < |users| ==> r[i] == Entry(users[i].id, Str(UserLabel(users[i])))
  {
    CombineDistinct(UserIds(users), UserLabels(users));
  }

  /** Every user is offered, under the label of the last user with that id. */
  lemma UserOptionsKeys(users: seq<User>, j: nat)
    requires j < |users|
    requires forall i :: j < i < |users| ==> users[i].id != users[j].id
    ensures Lookup(Combine(UserIds(users), UserLabels(users)), users[j].id) == Some(Str(UserLabel(users[j])))
  {
    CombineLookupLast(UserIds(users), UserLabels(users), j);
  }

  // ---------------------------------------------------------------------
  // Date and publication scopes

  /** `scopePublished`: the published events, in order. */
  function ScopePublished(events: seq<Event>): (r: seq<Event>)
    ensures forall i :: 0 <= i < |r| ==> r[i] in events && r[i].isPublished
    ensures forall i :: 0 <= i < |events| && events[i].isPublished ==> events[i] in r
    ensures SubsequenceOf(r, events)
  {
    Where(events, (e: Event) => e.isPublished)
  }

  /**
   * `scopePast(days)`: events whose date, read as midnight, is not before
   * the moment `days` days before `now`.
   */
  function ScopePast(events: seq<Event>, now: DateTime, days: int): (r: seq<Event>)
    ensures forall i :: 0 <= i < |r| ==>
      r[i] in events && Instant(StartOfDay(r[i].date)) >= Instant(now) - days * SecondsPerDay
    ensures forall i :: 0 <= i < |events| && Instant(StartOfDay(events[i].date)) >= Instant(now) - days * SecondsPerDay ==>
      events[i] in r
    ensures SubsequenceOf(r, events)
  {
    Where(events, (e: Event) => Instant(StartOfDay(e.date)) >= Instant(now) - days * SecondsPerDay)
  }

  /**
   * `scopeFuture(days)`: events whose date, read as midnight, is not after
   * the moment `days` days after `now`.
   */
  function ScopeFuture(events: seq<Event>, now: DateTime, days: int): (r: seq<Event>)
    ensures forall i :: 0 <= i < |r| ==>
      r[i] in events && Instant(StartOfDay(r[i].date)) <= Instant(now) + days * SecondsPerDay
    ensures forall i :: 0 <= i < |events| && Instant(StartOfDay(events[i].date)) <= Instant(now) + days * SecondsPerDay ==>
      events[i] in r
    ensures SubsequenceOf(r, events)
  {
    Where(events, (e: Event) => Instant(StartOfDay(e.date)) <= Instant(now) + days * SecondsPerDay)
  }

  /**
   * By days, `scopePast` keeps the dates after the boundary day, and the
   * boundary day itself only when `now` is exactly midnight.
   */
  lemma PastByDay(d: Date, now: DateTime, days: int)
    requires ValidTime(now)
    ensures Instant(StartOfDay(d)) >= Instant(now) - days * SecondsPerDay <==>
      DayNumber(d) > DayNumber(now.date) - days ||
      (DayNumber(d) == DayNumber(now.date) - days && AtMidnight(now))
  {
  }

  /** By days, `scopeFuture` keeps exactly the dates up to and including the boundary day. */
  lemma FutureByDay(d: Date, now: DateTime, days: int)
    requires ValidTime(now)
    ensures Instant(StartOfDay(d)) <= Instant(now) + days * SecondsPerDay <==>
      DayNumber(d) <= DayNumber(now.date) + days
  {
  }

  /**
   * With no slack, `scopePast` keeps the events dated after today, and
   * today's events only at midnight.
   */
  lemma PastFromToday(events: seq<Event>, now: DateTime, e: Event)
    requires ValidDate(now.date) && ValidTime(now) && ValidDate(e.date) && e in events
    ensures e in ScopePast(events, now, 0) <==>
      Earlier(now.date, e.date) || (e.date == now.date && AtMidnight(now))
  {
    DayNumberOrder(now.date, e.date);
    PastByDay(e.date, now, 0);
    var i :| 0 <= i < |events| && events[i] == e;
  }

  /** With no slack, `scopeFuture` keeps exactly the events not dated after today. */
  lemma FutureToToday(events: seq<Event>, now: DateTime, e: Event)
    requires ValidDate(now.date) && ValidTime(now) && ValidDate(e.date) && e in events
    ensures e in ScopeFuture(events, now, 0) <==> !Earlier(now.date, e.date)
  {
    DayNumberOrder(now.date, e.date);
    FutureByDay(e.date, now, 0);
    var i :| 0 <= i < |events| && events[i] == e;
  }

  /** Chaining the two scopes keeps the events inside the window of days. */
  lemma WindowScope(events: seq<Event>, now: DateTime, back: int, ahead: int, e: Event)
    requires ValidTime(now) && e in events
    ensures e in ScopeFuture(ScopePast(events, now, back), now, ahead) <==>
      (DayNumber(e.date) > DayNumber(now.date) - back ||
       (DayNumber(e.date) == DayNumber(now.date) - back && AtMidnight(now))) &&
      DayNumber(e.date) <= DayNumber(now.date) + ahead
  {
    PastByDay(e.date, now, back);
    FutureByDay(e.date, now, ahead);
    var i :| 0 <= i < |events| && events[i] == e;
    var past := ScopePast(events, now, back);
    if Instant(StartOfDay(e.date)) >= Instant(now) - back * SecondsPerDay {
      var j :| 0 <= j < |past| && past[j] == e;
    }
  }

  /** At midnight of 10 June 2024, seven days back excludes 1 June and includes 3 June. */
  lemma PastExample()
    ensures var e1 := Event(1, Date(2024, 6, 1), None, "a", true, None, []);
            var e3 := Event(3, Date(2024, 6, 3), None, "b", true, None, []);
            ScopePast([e1, e3], StartOfDay(Date(2024, 6, 10)), 7) == [e3]
  {
    var e1 := Event(1, Date(2024, 6, 1), None, "a", true, None, []);
    var e3 := Event(3, Date(2024, 6, 3), None, "b", true, None, []);
    var s := [e1, e3];
    assert s[1..] == [e3] && [e3][1..] == [];
  }

  /** At noon of 10 June 2024, seven days back also drops 3 June, the boundary day. */
  lemma PastExampleAfterMidnight()
    ensures var e1 := Event(1, Date(2024, 6, 1), None, "a", true, None, []);
            var e3 := Event(3, Date(2024, 6, 3), None, "b", true, None, []);
            ScopePast([e1, e3], DateTime(Date(2024, 6, 10), 12, 0, 0), 7) == []
  {
    var e1 := Event(1, Date(2024, 6, 1), None, "a", true, None, []);
    var e3 := Event(3, Date(2024, 6, 3), None, "b", true, None, []);
    var s := [e1, e3];
    assert s[1..] == [e3] && [e3][1..] == [];
  }

  // ---------------------------------------------------------------------
  // Permission scope

  /** The permission ids that make an event visible, as a set. */
  function AllowedSet(userId: Option<int>, globalKeys: seq<int>, publicPerm: seq<int>): (r: set<int>)
    ensures publicPerm == [] && !OptIntTruthy(userId) ==> r == {}
    ensures forall i :: 0 <= i < |publicPerm| ==> publicPerm[i] in r
    ensures forall i :: 0 <= i < |globalKeys| ==> (globalKeys[i] in r <==> OptIntTruthy(userId) || globalKeys[i] in publicPerm)
    ensures forall p :: p in r ==> p in publicPerm || p in globalKeys
  {
    if OptIntTruthy(userId) then (set p | p in globalKeys) + (set p | p in publicPerm)
    else set p | p in publicPerm
  }

  /**
   * The merged and de-duplicated permission list the scope builds:
   * global keys followed by the public permissions for a signed-in user,
   * the public permissions alone otherwise.
   */
  function PermissionList(userId: Option<int>, globalKeys: seq<int>, publicPerm: seq<int>): (r: seq<int>)
    ensures forall p :: p in r <==> p in AllowedSet(userId, globalKeys, publicPerm)
    ensures NoDuplicates(r)
  {
    var merged := if OptIntTruthy(userId) then globalKeys + publicPerm else publicPerm;
    UniqueMembers(merged);
    Unique(merged)
  }

  /** Some category carries a permission id of `allowed`. */
  predicate Grants(e: Event, allowed: seq<int>)
    ensures e.categories == [] || allowed == [] ==> !Grants(e, allowed)
  {
    exists c :: c in e.categories && c.permissionId.Some? && c.permissionId.value in allowed
  }

  /** Some category carries exactly the denied permission id. */
  predicate Denies(e: Event, denyPerm: int)
    ensures e.categories == [] ==> !Denies(e, denyPerm)
    ensures forall c :: c in e.categories && c.permissionId == Some(denyPerm) ==> Denies(e, denyPerm)
  {
    exists c :: c in e.categories && c.permissionId == Some(denyPerm)
  }

  /** The set-level visibility rule. */
  predicate Visible(e: Event, allowed: set<int>, denyPerm: int) {
    (exists c :: c in e.categories && c.permissionId.Some? && c.permissionId.value in allowed) &&
    !(exists c :: c in e.categories && c.permissionId == Some(denyPerm))
  }

  /**
   * `scopePermisions`: without the permissions plugin the events pass
   * unchanged; with it, the events that have a category in the allowed
   * list and none carrying the denied id, in their original order.
   */
  function ScopePermissions(events: seq<Event>, passageInstalled: bool, globalKeys: seq<int>,
                            userId: Option<int>, publicPerm: seq<int>, denyPerm: int): (r: seq<Event>)
    ensures !passageInstalled ==> r == events
    ensures SubsequenceOf(r, events)
    ensures passageInstalled ==>
      forall i :: 0 <= i < |r| ==> r[i] in events && Visible(r[i], AllowedSet(userId, globalKeys, publicPerm), denyPerm)
    ensures passageInstalled ==>
      forall i :: 0 <= i < |events| && Visible(events[i], AllowedSet(userId, globalKeys, publicPerm), denyPerm) ==>
        events[i] in r
  {
    if passageInstalled then
      var allowed := PermissionList(userId, globalKeys, publicPerm);
      Where(events, (e: Event) => Grants(e, allowed) && !Denies(e, denyPerm))
    else
      SubsequenceOfSelf(events);
      events
  }

  /** An event without categories never passes the permission scope. */
  lemma NoCategoriesHidden(e: Event, globalKeys: seq<int>, userId: Option<int>, publicPerm: seq<int>, denyPerm: int)
    requires e.categories == []
    ensures ScopePermissions([e], true, globalKeys, userId, publicPerm, denyPerm) == []
  {
  }

  /** A category with the denied id hides an event whatever else it grants. */
  lemma DeniedHidden(events: seq<Event>, e: Event, globalKeys: seq<int>, userId: Option<int>,
                     publicPerm: seq<int>, denyPerm: int)
    requires exists c :: c in e.categories && c.permissionId == Some(denyPerm)
    ensures e !in ScopePermissions(events, true, globalKeys, userId, publicPerm, denyPerm)
  {
  }

  /** The scope's list test is the set-level rule. */
  lemma GrantsIsVisible(e: Event, userId: Option<int>, globalKeys: seq<int>, publicPerm: seq<int>, denyPerm: int)
    ensures (Grants(e, PermissionList(userId, globalKeys, publicPerm)) && !Denies(e, denyPerm)) ==
            Visible(e, AllowedSet(userId, globalKeys, publicPerm), denyPerm)
  {
  }

  /** An anonymous viewer's result does not depend on the global passage keys. */
  lemma AnonymousIgnoresGlobalKeys(events: seq<Event>, keys1: seq<int>, keys2: seq<int>,
                                   userId: Option<int>, publicPerm: seq<int>, denyPerm: int)
    requires !OptIntTruthy(userId)
    ensures ScopePermissions(events, true, keys1, userId, publicPerm, denyPerm) ==
            ScopePermissions(events, true, keys2, userId, publicPerm, denyPerm)
  {
    var l1 := PermissionList(userId, keys1, publicPerm);
    var l2 := PermissionList(userId, keys2, publicPerm);
    assert l1 == l2;
  }

  /** De-duplicating the merged list does not change which events pass. */
  lemma UniqueIrrelevant(events: seq<Event>, globalKeys: seq<int>, userId: Option<int>,
                         publicPerm: seq<int>, denyPerm: int)
    ensures
      var merged := if OptIntTruthy(userId) then globalKeys + publicPerm else publicPerm;
      ScopePermissions(events, true, globalKeys, userId, publicPerm, denyPerm) ==
      Where(events, (e: Event) => Grants(e, merged) && !Denies(e, denyPerm))
  {
    var merged := if OptIntTruthy(userId) then globalKeys + publicPerm else publicPerm;
    var allowed := PermissionList(userId, globalKeys, publicPerm);
    var p := (e: Event) => Grants(e, allowed) && !Denies(e, denyPerm);
    var q := (e: Event) => Grants(e, merged) && !Denies(e, denyPerm);
    forall i | 0 <= i < |events| ensures p(events[i]) == q(events[i]) {
      assert forall x :: x in allowed <==> x in merged;
    }
    WhereExtensional(events, p, q);
  }

  /** Signing in never hides an event an anonymous viewer sees. */
  lemma SignedInSeesMore(events: seq<Event>, globalKeys: seq<int>, anonymous: Option<int>,
                         signedIn: Option<int>, publicPerm: seq<int>, denyPerm: int)
    requires !OptIntTruthy(anonymous) && OptIntTruthy(signedIn)
    ensures SubsequenceOf(ScopePermissions(events, true, globalKeys, anonymous, publicPerm, denyPerm),
                          ScopePermissions(events, true, globalKeys, signedIn, publicPerm, denyPerm))
  {
    var a := PermissionList(anonymous, globalKeys, publicPerm);
    var s := PermissionList(signedIn, globalKeys, publicPerm);
    var p := (e: Event) => Grants(e, a) && !Denies(e, denyPerm);
    var q := (e: Event) => Grants(e, s) && !Denies(e, denyPerm);
    forall i | 0 <= i < |events| ensures p(events[i]) ==> q(events[i]) {
      assert forall x :: x in a ==> x in s;
    }
    WhereWeaker(events, p, q);
  }

  /** The scope applied to a concatenation is the concatenation of the scopes. */
  lemma ScopePermissionsAppend(a: seq<Event>, b: seq<Event>, passageInstalled: bool, globalKeys: seq<int>,
                               userId: Option<int>, publicPerm: seq<int>, denyPerm: int)
    ensures ScopePermissions(a + b, passageInstalled, globalKeys, userId, publicPerm, denyPerm) ==
            ScopePermissions(a, passageInstalled, globalKeys, userId, publicPerm, denyPerm) +
            ScopePermissions(b, passageInstalled, globalKeys, userId, publicPerm, denyPerm)
  {
    if passageInstalled {
      var allowed := PermissionList(userId, globalKeys, publicPerm);
      WhereAppend(a, b, (e: Event) => Grants(e, allowed) && !Denies(e, denyPerm));
    }
  }

  /** The default deny id 0 is matched like any other id. */
  lemma ZeroDenyIsNotVacuous(globalKeys: seq<int>, userId: Option<int>)
    ensures var e := Event(1, Date(2024, 1, 1), None, "e", true, None, [Category(1, Some(0)), Category(2, Some(5))]);
            ScopePermissions([e], true, globalKeys, userId, [5], 0) == []
  {
    var e := Event(1, Date(2024, 1, 1), None, "e", true, None, [Category(1, Some(0)), Category(2, Some(5))]);
    assert Denies(e, 0) by { assert e.categories[0] in e.categories; }
  }
}
