# MyCalendar Event model in Dafny

This project models the calendar `Event` model of the MyCalendar plugin for
October CMS (`models/Event.php`). It covers:

- the permission scope `scopePermisions`, which hides events by category
  permission;
- the date scopes `scopePast`, `scopeFuture` and `scopePublished`;
- the derived attributes `day`, `month`, `year`, `carbon_time`,
  `human_time` and `owner_name`;
- the `beforeSave` hook, which strips the derived attributes before a write;
- the option lists of the admin form: days, months, years and users.

The ORM is replaced by plain sequences. A query scope becomes a filter over
a `seq<Event>` whose categories and owner are already loaded. The plugin
probes and other foreign calls become parameters:

- the `kurtjensen.passage` probe becomes `passageInstalled: bool`;
- the `rainlab.user` probe becomes `userPluginInstalled: bool`;
- `globalPassageKeys()` becomes the sequence of its keys, `globalKeys`;
- the wall clock becomes `now: DateTime` (the current moment) and
  `currentYear: int`;
- the configured time-format rendering becomes `format: DateTime -> string`.

Modules:

- `Wrappers`: `Option` and `Result`.
- `Php`: the PHP semantics the model relies on. This covers truthiness,
  ordered integer-keyed arrays (`$a[$k] = $v`, `unset`, `array_combine`,
  `range`, `array_unique`), `explode`/`implode`, and digit strings read as
  integers. `Where` is the in-memory `where` clause, and `SubsequenceOf`
  states that order is kept.
- `Calendar`: Gregorian leap years and month lengths (`cal_days_in_month`),
  and `Date` with a day ordinal `DayNumber`. `DayNumberOrder` proves that
  the ordinal orders valid dates chronologically, so comparing ordinals is
  comparing dates. `Moment` is a class standing for a mutable Carbon
  object.
- `EventModel`: the model itself.

The model follows the code except as listed under "Left out" and
"Findings" below. It keeps these readings of the code where a comment or a
natural reading says otherwise:

- `owner_name` is the given name, a space, then the surname
  (models/Event.php:104).
- The default `deny_perm` of 0 is an ordinary id. A category whose
  `permission_id` is 0 hides the event (`ZeroDenyIsNotVacuous`).
- The doc comment of `scopeFuture` says "after", but the code keeps events
  dated on or before today plus `days` (models/Event.php:185).
- The date scopes compare the DATE column, read as midnight, with a Carbon
  moment that keeps the current time of day (models/Event.php:170-172 and
  183-185). So `scopePast` keeps the boundary day itself only when "now" is
  exactly midnight (`PastByDay`). `scopeFuture` always keeps its boundary
  day, since that day's midnight is never after the moment
  (`FutureByDay`).
- A category whose `permission_id` is NULL neither grants nor denies. This
  is SQL's comparison with NULL, modelled with `Option<int>`.
- A user id is truthy unless it is null or 0.
- A time string is falsy when it is null, `""` or `"0"`.

## Model

| member | source | states |
|---|---|---|
| EventModel.Day | models/Event.php:66-69 | the day attribute is the date's day, within the length of its month |
| EventModel.Month | models/Event.php:71-74 | the month attribute is the date's month, between 1 and 12 |
| EventModel.Year | models/Event.php:76-79 | the year attribute is the date's year, at least 1 for a valid date |
| Php.StringTruthy | models/Event.php:89 | the empty string and "0" are falsy; every other one-character string and every longer string is truthy |
| Php.IntTruthy | models/Event.php:204 | an integer is truthy exactly when it is not 0 |
| Php.OptIntTruthy | models/Event.php:204 | a nullable integer is truthy when present and not 0 |
| Php.OptStringTruthy | models/Event.php:89 | a nullable string is truthy when present and truthy as a string |
| Php.ParseNat | models/Event.php:92-95 | a field reads as a number exactly when it is a non-empty string of decimal digits |
| EventModel.ParseTime | models/Event.php:92-95 | hour and minute are the decimal values of the first two ':'-separated fields of the time; the result is Ok exactly when there are two such fields, both digit strings, with hour at most 23 and minute at most 59; every failure is a format error |
| EventModel.CarbonTimeOf | models/Event.php:87-97 | carbon_time is empty exactly when the time is falsy; a truthy time whose fields parse gives a date-time, which keeps the date and seconds and takes hour and minute from the two fields; a truthy time that does not parse is a format error |
| EventModel.CarbonTimeRoundTrip | models/Event.php:92-95 | any time written as two-digit hours and minutes, optionally followed by more ':' fields such as seconds, yields that hour and minute on the event's date |
| EventModel.CarbonTimeExample | models/Event.php:87-97 | 14:30 on 15 March 2024 yields 2024-03-15 14:30:00 |
| EventModel.CarbonTimeSingleDigitHour | models/Event.php:92-95 | a one-digit hour such as "9:05" is read as 09:05 |
| EventModel.GetCarbonTime | models/Event.php:87-97 | copies the date object into a fresh one, sets the copy's hour and minute, and agrees with CarbonTimeOf in each outcome |
| Calendar.Moment.Copy | models/Event.php:93 | the copy is a fresh object with the same date and time |
| Calendar.Moment.SetHour | models/Event.php:94 | only the hour changes |
| Calendar.Moment.SetMinute | models/Event.php:95 | only the minute changes |
| EventModel.HumanTimeAsWritten | models/Event.php:81-85 | as written: empty for a null time; a call on the empty string for a set but falsy time; the formatted carbon_time, or its error, for a truthy time |
| EventModel.HumanTimeAsWrittenFailsOnEmptyTime | models/Event.php:83 | as written, a time of "" or "0" passes the isset guard, and formatting the empty carbon_time fails |
| EventModel.HumanTime | models/Event.php:81-85 | human_time is empty when the time is falsy, is the formatted carbon_time otherwise, and never formats the empty string |
| EventModel.HumanTimeAgrees | models/Event.php:81-85 | the corrected getter returns what the original returns wherever the original succeeds |
| EventModel.OwnerName | models/Event.php:99-108 | empty without the user plugin or without an owner; otherwise exactly the given name, one space, then the surname |
| EventModel.DefaultAttributes | models/Event.php:57-64 | the defaults hold day, month, year and the three derived attributes: 0 for each date part, the empty string for each derived one |
| EventModel.EventRecord.constructor | models/Event.php:57-64 | a new record starts with the six default attributes |
| EventModel.Persisted | models/Event.php:110-116 | removes exactly human_time, owner_name and carbon_time; every other key keeps its value, whatever the value type |
| EventModel.EventRecord.BeforeSave | models/Event.php:110-116 | the attribute map becomes Persisted of the old map, and every other key, day, month and year included, is unchanged |
| EventModel.PersistedIdempotent | models/Event.php:110-116 | clearing the derived attributes twice is the same as once |
| EventModel.PersistedDefaults | models/Event.php:57-64 | from the defaults only day, month and year (all 0) are left for the save |
| Calendar.IsLeapYear | models/Event.php:121 | the Gregorian rule: divisible by 4, and not by 100 unless by 400 |
| Calendar.DaysInMonth | models/Event.php:121 | between 28 and 31 days; February has 29 exactly in Gregorian leap years; months other than February have at least 30 |
| EventModel.DayOptions | models/Event.php:118-126 | with month or year unset, the single placeholder under key 0; with a valid month and year, days 1..DaysInMonth each keyed by itself, in order; an out-of-range month is an error |
| EventModel.FebruaryOptions | models/Event.php:120-123 | February offers 29 days in a leap year and 28 otherwise |
| EventModel.LeapYearExamples | models/Event.php:121 | 2024 and 2000 are leap years; 2023 and 1900 are not |
| EventModel.ListArray | models/Event.php:130 | a list literal keys each element by its position, from 0, in order |
| EventModel.MonthOptions | models/Event.php:128-133 | twelve entries, keys 1 to 12 in order, each with its month name; the dummy index 0 is gone |
| EventModel.YearOptions | models/Event.php:135-140 | six entries, the current year and the five after it in order, each keyed by itself |
| EventModel.DateIsOffered | models/Event.php:118-133 | the day and month of every valid event date are among the day and month options |
| EventModel.UserLabel | models/Event.php:149 | the surname, a comma and a space, then the given name |
| EventModel.UserIdOptions | models/Event.php:142-155 | without the user plugin, the single notice under key 0; otherwise each user's label assigned to the user's id in the order given |
| EventModel.UserOptionsDistinct | models/Event.php:147-150 | users with distinct ids give one option each, in their order |
| EventModel.UserOptionsKeys | models/Event.php:147-150 | every user's id is a key, holding the label of the last user with that id |
| EventModel.ScopePublished | models/Event.php:157-160 | keeps exactly the published events, in order |
| Calendar.Instant | models/Event.php:170-172 | on a valid time of day, a moment lies within its day's 86400 seconds, and at that day's first second exactly at midnight |
| EventModel.ScopePast | models/Event.php:168-173 | keeps exactly the events whose date, read as midnight, is not before the moment days days before now, in order |
| EventModel.ScopeFuture | models/Event.php:181-186 | keeps exactly the events whose date, read as midnight, is not after the moment days days after now, in order |
| EventModel.PastByDay | models/Event.php:170-172 | by days, scopePast keeps the dates after the boundary day, and the boundary day itself only when now is midnight |
| EventModel.FutureByDay | models/Event.php:183-185 | by days, scopeFuture keeps exactly the dates up to and including the boundary day |
| Calendar.DayNumberOrder | models/Event.php:172 | on valid dates the ordinal is smaller exactly when the date is earlier, and equal exactly when the dates are equal |
| EventModel.PastFromToday | models/Event.php:168-173 | with 0 days, scopePast keeps the events dated after today, and today's events only at midnight |
| EventModel.FutureToToday | models/Event.php:181-186 | with 0 days, scopeFuture keeps exactly the events not dated after today |
| EventModel.WindowScope | models/Event.php:168-186 | chaining both scopes keeps exactly the events inside the window of days, the first day only at midnight |
| EventModel.PastExample | models/Event.php:168-173 | at midnight of 10 June 2024, seven days back drops 1 June and keeps 3 June |
| EventModel.PastExampleAfterMidnight | models/Event.php:168-173 | at noon of 10 June 2024, seven days back drops 3 June as well |
| Php.Unique | models/Event.php:210 | array_unique keeps every value of its input and no other, without duplicates, as a subsequence of the input |
| Php.UniqueFirstOccurrenceOrder | models/Event.php:210 | array_unique lists the kept values in the order of their first occurrence |
| Php.UniqueExample | models/Event.php:210 | array_unique of [1, 2, 1] is [1, 2]: the first occurrence is the one kept |
| EventModel.AllowedSet | models/Event.php:203-208 | every public permission is allowed; a global key is allowed exactly for a truthy user id or when it is also public; nothing else is allowed |
| EventModel.PermissionList | models/Event.php:203-210 | the merged list holds the global keys and the public permissions for a truthy user id, only the public permissions otherwise, each once |
| EventModel.Grants | models/Event.php:212-214 | an event without categories, or an empty allowed list, grants nothing |
| EventModel.Denies | models/Event.php:215-217 | any category with the denied id denies; an event without categories is never denied |
| EventModel.ScopePermissions | models/Event.php:197-221 | without the permissions plugin the events are unchanged; with it, exactly the events with a category in the allowed set and none with the denied id, in input order |
| EventModel.NoCategoriesHidden | models/Event.php:212-214 | an event without categories is never kept |
| EventModel.DeniedHidden | models/Event.php:215-217 | an event with a category carrying the denied id is never kept, whatever else it grants |
| EventModel.GrantsIsVisible | models/Event.php:212-217 | the list-based test is the set-level rule: some category allowed and none denied |
| EventModel.AnonymousIgnoresGlobalKeys | models/Event.php:204-208 | for a falsy user id the result does not depend on the global passage keys |
| EventModel.UniqueIrrelevant | models/Event.php:210 | filtering with the de-duplicated list equals filtering with the raw merged list |
| EventModel.SignedInSeesMore | models/Event.php:204-214 | a signed-in viewer sees, in order, every event an anonymous viewer sees |
| EventModel.ScopePermissionsAppend | models/Event.php:212-217 | the scope over a concatenation is the concatenation of the scopes |
| EventModel.ZeroDenyIsNotVacuous | models/Event.php:215-217 | with the default deny id 0, a category whose permission id is 0 hides the event |
| Php.Explode | models/Event.php:92 | explode yields at least one field, none containing the separator |
| Php.ImplodeExplode | models/Event.php:92 | joining the fields of explode gives the string back |
| Php.ExplodeImplode | models/Event.php:92 | fields free of the separator come back from explode unchanged |
| Php.Range | models/Event.php:122 | range counts up by one from lo to hi inclusive, or down when lo is above hi |
| Php.Combine | models/Event.php:123 | array_combine assigns each value to its key in turn; its properties are stated by CombineKeys, CombineLookupLast and CombineDistinct |
| Php.CombineDistinct | models/Event.php:123 | array_combine with distinct keys pairs keys and values position by position |
| Php.CombineKeys | models/Event.php:139 | the keys of array_combine are exactly the given keys |
| Php.CombineLookupLast | models/Event.php:149 | under a repeated key array_combine holds the last value given for it |
| Php.Lookup | models/Event.php:149 | reading a key finds a value exactly when some slot holds that key |
| Php.Assign | models/Event.php:149 | after assignment the key holds the new value and every other key is unchanged |
| Php.AssignAppends | models/Event.php:149 | assigning to a new key appends one slot at the end |
| Php.AssignOverwrites | models/Event.php:149 | assigning to a present key keeps the length and every slot's key in place |
| Php.Unset | models/Event.php:131 | after unset the key is absent, every other key is unchanged, no new slot appears, and the remaining slots keep their order |
| Php.Where | models/Event.php:159 | a where clause keeps exactly the rows satisfying the condition, in order |

## Left out

- `updates/add_event_fields.php` only adds and drops nullable columns. No logic reads them.
- Relations, eager loading (`scopeWithOwner`, `with('user')`) and the validation rules are ORM mechanics. The events come in with their categories and owner already loaded.
- `PluginManager::instance()->exists(...)` and `\KurtJensen\Passage\Plugin::globalPassageKeys()` are foreign calls. They are modelled as a boolean and as the sequence of the key table's keys.
- Reading the clock (`new Carbon()`, `date('Y')`) is I/O. The current moment and the current year are parameters.
- EventModel.HumanTime: the rendering with `Settings::get('time_format', 'g:i a')` belongs to Carbon's formatter and is passed in as `format`.
- EventModel.CarbonTimeOf: a time with fewer than two fields, a non-digit field, an hour above 23 or a minute above 59 is reported as a format error. PHP would raise a notice or a type error, or Carbon would roll over into the next day.
- Calendar.Moment.SetHour: accepts only hours of the day. Carbon's roll-over of larger values is not modelled.
- Calendar.Moment.SetMinute: accepts only minutes of the hour, for the same reason.
- EventModel.DayOptions: a truthy month outside 1..12, or a year before 1, is reported as an invalid date. PHP's calendar extension rejects such months, but it also accepts years before the common era; the model does not.
- EventModel.UserIdOptions: the users come in already sorted. Sorting by surname and then name happens in the database.
- Php.Unique: returns a list, so the gaps in the keys that `array_unique` leaves are dropped. The scope only passes the values to `whereIn`, which ignores keys.
- The `public $permarray` property is never written by the scope, which uses a local variable of the same name. It is not modelled.
- Attribute values are only integers or strings: these are all the values the modelled getters and defaults put in the attribute array, and a date column sits there as its stored string. `Persisted` itself is generic in the value type.
- Time zones and daylight saving are not modelled. A moment is a calendar date with an hour, minute and second.
- Arrays keep insertion order. The attribute array is a `map`, because only membership and values matter to `beforeSave`; the option lists are sequences of entries.

## Findings

| source | as written | input that shows it | evidently intended | confidence | as-written member | corrected member |
|---|---|---|---|---|---|---|
| models/Event.php:83 | `isset($this->time)` guards the call `$this->carbon_time->format(...)`, but `carbon_time` returns `''` for every falsy time | an event whose `time` is `""` or `"0"`: isset holds, `carbon_time` is `''`, and `''->format()` is a call on a string | human_time is empty whenever carbon_time is empty | medium, not executed | EventModel.HumanTimeAsWrittenFailsOnEmptyTime | EventModel.HumanTime |
