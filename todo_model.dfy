/**
 * The TODO item of src/todo_model.py.
 *
 * A `TodoItem` is a value with the dataclass's nine fields. Its two
 * mutators become functions that return the updated item; the manager
 * writes the result back into its list. The clock is an explicit `Clock`
 * (a day number and the milliseconds since that day's midnight); ISO date
 * strings become day numbers and ISO timestamps become millisecond
 * timestamps.
 */
module TodoModel {
  import opened Common

  const MsPerMinute := 60 * 1000
  const MsPerDay := 24 * 60 * MsPerMinute

  /** TodoStatus; items store the string `Value()` of a status, as the dataclass does. */
  datatype TodoStatus = Pending | Completed
  {
    function Value(): string
    {
      match this
      case Pending => "pending"
      case Completed => "completed"
    }
  }

  /** Local time: the calendar day and the milliseconds elapsed since its midnight. */
  datatype Clock = Clock(day: int, msOfDay: int)
  {
    predicate Valid()
    {
      0 <= msOfDay < MsPerDay
    }

    function Timestamp(): int
    {
      day * MsPerDay + msOfDay
    }
  }

  /**
   * TodoItem. `scheduledTime` is "HH:MM" for recurring items; `status` holds a
   * status string; `completedAt` and `createdAt` are timestamps and
   * `lastResetDate` a day number.
   */
  datatype TodoItem = TodoItem(
    id: string,
    title: string,
    description: string,
    isRecurring: bool,
    scheduledTime: Option<string>,
    status: string,
    completedAt: Option<int>,
    lastResetDate: Option<int>,
    createdAt: int)

  /** The item the dataclass builds from its defaults, given the fresh id and the creation time. */
  function DefaultItem(freshId: string, now: int): TodoItem
  {
    TodoItem(freshId, "", "", false, None, Pending.Value(), None, None, now)
  }

  // ---------------------------------------------------------------------------
  // "HH:MM"
  // ---------------------------------------------------------------------------

  /** A non-empty run of ASCII digits. */
  predicate AllDigits(s: string)
  {
    |s| > 0 && forall i :: 0 <= i < |s| ==> IsDigit(s[i])
  }

  /** The index of the first ':' in s, or |s| when there is none. */
  function ColonIndex(s: string): (k: nat)
    ensures k <= |s|
    ensures k < |s| ==> s[k] == ':'
    ensures forall i :: 0 <= i < k ==> s[i] != ':'
  {
    if s == [] then 0
    else if s[0] == ':' then 0
    else 1 + ColonIndex(s[1..])
  }

  /**
   * What `map(int, s.split(':'))` followed by `now.replace(hour=, minute=)`
   * accepts without raising: exactly two fields of decimal digits, an hour
   * below 24 and a minute below 60.
   */
  predicate WellFormedTime(s: string)
  {
    var k := ColonIndex(s);
    && k < |s|
    && AllDigits(s[..k]) && AllDigits(s[k + 1..])
    && DigitsValue(s[..k]) < 24 && DigitsValue(s[k + 1..]) < 60
  }

  datatype TimeOfDay = TimeOfDay(hour: nat, minute: nat)

  /** Splits "HH:MM" at its colon and reads both fields. */
  function ParseTime(s: string): (t: TimeOfDay)
    requires WellFormedTime(s)
    ensures t.hour < 24 && t.minute < 60
  {
    var k := ColonIndex(s);
    DigitsValueNonNegative(s[..k]);
    DigitsValueNonNegative(s[k + 1..]);
    TimeOfDay(DigitsValue(s[..k]), DigitsValue(s[k + 1..]))
  }

  function TwoDigits(n: nat): string
    requires n < 100
  {
    [DigitChar(n / 10), DigitChar(n % 10)]
  }

  /** "HH:MM", the form the time is stored in. */
  function FormatTime(t: TimeOfDay): string
    requires t.hour < 24 && t.minute < 60
  {
    TwoDigits(t.hour) + ":" + TwoDigits(t.minute)
  }

  lemma TwoDigitsValue(n: nat)
    requires n < 100
    ensures AllDigits(TwoDigits(n)) && DigitsValue(TwoDigits(n)) == n
  {
    var s := TwoDigits(n);
    assert s[..1][..0] == [];
    assert DigitsValue(s[..1]) == n / 10;
    assert s[..|s| - 1] == s[..1];
  }

  /** Formatting a time and parsing it back gives the same hour and minute. */
  lemma ParseFormatTime(t: TimeOfDay)
    requires t.hour < 24 && t.minute < 60
    ensures WellFormedTime(FormatTime(t)) && ParseTime(FormatTime(t)) == t
  {
    var s := FormatTime(t);
    assert ColonIndex(s[1..][1..]) == 0;
    assert ColonIndex(s[1..]) == 1;
    assert ColonIndex(s) == 2;
    assert s[..2] == TwoDigits(t.hour);
    assert s[3..] == TwoDigits(t.minute);
    TwoDigitsValue(t.hour);
    TwoDigitsValue(t.minute);
  }

  // ---------------------------------------------------------------------------
  // Due and reset predicates
  // ---------------------------------------------------------------------------

  /** `not self.scheduled_time`: no time, or the empty string. */
  predicate Unscheduled(t: TodoItem)
  {
    t.scheduledTime.None? || t.scheduledTime.value == ""
  }

  /** `is_due` parses the scheduled time only of a pending recurring item that has one. */
  predicate DueDefined(t: TodoItem)
  {
    t.status == Pending.Value() && t.isRecurring && !Unscheduled(t) ==> WellFormedTime(t.scheduledTime.value)
  }

  /**
   * The scheduled time of a recurring item parses; `is_due` raises on any
   * other recurring item that has a time, whatever its status becomes.
   */
  predicate ScheduleParses(t: TodoItem)
  {
    t.isRecurring && !Unscheduled(t) ==> WellFormedTime(t.scheduledTime.value)
  }

  /** `is_due`: pending, and either not bound to a time or past that time today. */
  predicate IsDue(t: TodoItem, now: Clock)
    requires DueDefined(t)
  {
    if t.status != Pending.Value() then false
    else if !t.isRecurring || Unscheduled(t) then true
    else
      var hm := ParseTime(t.scheduledTime.value);
      now.msOfDay >= (hm.hour * 60 + hm.minute) * MsPerMinute
  }

  /** `needs_reset`: a recurring item not yet reset today. */
  predicate NeedsReset(t: TodoItem, today: int)
  {
    t.isRecurring && t.lastResetDate != Some(today)
  }

  /** `reset_for_new_day`. */
  function ResetForNewDay(t: TodoItem, today: int): (r: TodoItem)
    ensures r.status == Pending.Value() && r.completedAt == None && r.lastResetDate == Some(today)
    ensures r.(status := t.status, completedAt := t.completedAt, lastResetDate := t.lastResetDate) == t
  {
    t.(status := Pending.Value(), completedAt := None, lastResetDate := Some(today))
  }

  /** `mark_completed`. */
  function MarkCompleted(t: TodoItem, now: int): (r: TodoItem)
    ensures r.status == Completed.Value() && r.completedAt == Some(now)
    ensures r.(status := t.status, completedAt := t.completedAt) == t
  {
    t.(status := Completed.Value(), completedAt := Some(now))
  }

  /** An item that is not pending is never due. */
  lemma NotDueUnlessPending(t: TodoItem, now: Clock)
    requires t.status != Pending.Value()
    ensures DueDefined(t) && !IsDue(t, now)
  {
  }

  /** A pending item that is not recurring, or has no time, is due at every moment. */
  lemma UnscheduledAlwaysDue(t: TodoItem, now: Clock)
    requires t.status == Pending.Value() && (!t.isRecurring || Unscheduled(t))
    ensures DueDefined(t) && IsDue(t, now)
  {
  }

  /**
   * A pending recurring item scheduled at "HH:MM" is due, on any day, exactly
   * from HH:MM:00 on.
   */
  lemma ScheduledDueFrom(t: TodoItem, hm: TimeOfDay, now: Clock)
    requires hm.hour < 24 && hm.minute < 60
    requires t.status == Pending.Value() && t.isRecurring && t.scheduledTime == Some(FormatTime(hm))
    ensures DueDefined(t)
    ensures IsDue(t, now) <==> now.msOfDay >= (hm.hour * 60 + hm.minute) * MsPerMinute
  {
    ParseFormatTime(hm);
  }

  /** An item scheduled at 09:00 is due from 09:00 on and not before, and never once completed. */
  lemma NineOClockExample(t: TodoItem, now: Clock)
    requires t.isRecurring && t.scheduledTime == Some("09:00")
    ensures DueDefined(t)
    ensures t.status == Pending.Value() ==> (IsDue(t, now) <==> now.msOfDay >= 9 * 60 * MsPerMinute)
    ensures t.status == Completed.Value() ==> !IsDue(t, now)
  {
    ParseFormatTime(TimeOfDay(9, 0));
    assert FormatTime(TimeOfDay(9, 0)) == "09:00";
  }

  /** Non-recurring items never need a reset; recurring ones exactly when not reset today. */
  lemma NeedsResetRule(t: TodoItem, today: int)
    ensures !t.isRecurring ==> !NeedsReset(t, today)
    ensures t.isRecurring ==> (NeedsReset(t, today) <==> t.lastResetDate != Some(today))
  {
  }

  /** After a reset the item does not need another one that day, and resetting again changes nothing. */
  lemma ResetRule(t: TodoItem, today: int)
    ensures !NeedsReset(ResetForNewDay(t, today), today)
    ensures ResetForNewDay(ResetForNewDay(t, today), today) == ResetForNewDay(t, today)
    ensures DueDefined(t) && t.status == Pending.Value() ==> DueDefined(ResetForNewDay(t, today))
  {
  }

  /** A completed item is not due. */
  lemma CompletedNotDue(t: TodoItem, stamp: int, now: Clock)
    ensures DueDefined(MarkCompleted(t, stamp)) && !IsDue(MarkCompleted(t, stamp), now)
  {
  }

  // ---------------------------------------------------------------------------
  // to_dict / from_dict
  // ---------------------------------------------------------------------------

  /** A JSON-like value, as `asdict` produces and `from_dict` receives. */
  datatype Value = Str(s: string) | Bool(b: bool) | Int(i: int) | Null

  type Dict = map<string, Value>

  /** The dataclass's field names. */
  const FieldNames: set<string> :=
    {"id", "title", "description", "is_recurring", "scheduled_time", "status",
     "completed_at", "last_reset_date", "created_at"}

  function StrOrNull(o: Option<string>): Value
  {
    if o.Some? then Str(o.value) else Null
  }

  function IntOrNull(o: Option<int>): Value
  {
    if o.Some? then Int(o.value) else Null
  }

  /** `to_dict` (`asdict`): one entry per field. */
  function ToDict(t: TodoItem): (d: Dict)
    ensures d.Keys == FieldNames
  {
    map["id" := Str(t.id), "title" := Str(t.title), "description" := Str(t.description),
        "is_recurring" := Bool(t.isRecurring), "scheduled_time" := StrOrNull(t.scheduledTime),
        "status" := Str(t.status), "completed_at" := IntOrNull(t.completedAt),
        "last_reset_date" := IntOrNull(t.lastResetDate), "created_at" := Int(t.createdAt)]
  }

  predicate IsStr(v: Value) { v.Str? }
  predicate IsStrOrNull(v: Value) { v.Str? || v.Null? }
  predicate IsIntOrNull(v: Value) { v.Int? || v.Null? }

  /** Every field present in d holds a value of that field's type. */
  predicate WellTyped(d: Dict)
  {
    && ("id" in d ==> IsStr(d["id"]))
    && ("title" in d ==> IsStr(d["title"]))
    && ("description" in d ==> IsStr(d["description"]))
    && ("is_recurring" in d ==> d["is_recurring"].Bool?)
    && ("scheduled_time" in d ==> IsStrOrNull(d["scheduled_time"]))
    && ("status" in d ==> IsStr(d["status"]))
    && ("completed_at" in d ==> IsIntOrNull(d["completed_at"]))
    && ("last_reset_date" in d ==> IsIntOrNull(d["last_reset_date"]))
    && ("created_at" in d ==> d["created_at"].Int?)
  }

  function StrField(d: Dict, k: string, default: string): string
    requires k in d ==> IsStr(d[k])
  {
    if k in d then d[k].s else default
  }

  function OptStrField(d: Dict, k: string): Option<string>
    requires k in d ==> IsStrOrNull(d[k])
  {
    if k in d && d[k].Str? then Some(d[k].s) else None
  }

  function OptIntField(d: Dict, k: string): Option<int>
    requires k in d ==> IsIntOrNull(d[k])
  {
    if k in d && d[k].Int? then Some(d[k].i) else None
  }

  /**
   * `from_dict`: the fields present in d, the dataclass defaults for the
   * others (a fresh id and the current time for `id` and `created_at`);
   * keys that are not fields are ignored.
   */
  function FromDict(d: Dict, freshId: string, now: int): TodoItem
    requires WellTyped(d)
  {
    var base := DefaultItem(freshId, now);
    TodoItem(
      StrField(d, "id", base.id),
      StrField(d, "title", base.title),
      StrField(d, "description", base.description),
      if "is_recurring" in d then d["is_recurring"].b else base.isRecurring,
      OptStrField(d, "scheduled_time"),
      StrField(d, "status", base.status),
      OptIntField(d, "completed_at"),
      OptIntField(d, "last_reset_date"),
      if "created_at" in d then d["created_at"].i else base.createdAt)
  }

  /** Serialising an item and reading it back gives the same item. */
  lemma FromDictToDict(t: TodoItem, freshId: string, now: int)
    ensures WellTyped(ToDict(t)) && FromDict(ToDict(t), freshId, now) == t
  {
  }

  /** d and e hold the same entry, or both none, under key k. */
  predicate AgreeOn(d: Dict, e: Dict, k: string)
  {
    (k in d <==> k in e) && (k in d ==> d[k] == e[k])
  }

  /** d and e agree on every field name. */
  predicate AgreeOnFields(d: Dict, e: Dict)
  {
    && AgreeOn(d, e, "id") && AgreeOn(d, e, "title") && AgreeOn(d, e, "description")
    && AgreeOn(d, e, "is_recurring") && AgreeOn(d, e, "scheduled_time") && AgreeOn(d, e, "status")
    && AgreeOn(d, e, "completed_at") && AgreeOn(d, e, "last_reset_date") && AgreeOn(d, e, "created_at")
  }

  lemma AgreeStrField(d: Dict, e: Dict, k: string, default: string)
    requires AgreeOn(d, e, k) && (k in d ==> IsStr(d[k]))
    ensures (k in e ==> IsStr(e[k])) && StrField(e, k, default) == StrField(d, k, default)
  {
  }

  lemma AgreeOptStrField(d: Dict, e: Dict, k: string)
    requires AgreeOn(d, e, k) && (k in d ==> IsStrOrNull(d[k]))
    ensures (k in e ==> IsStrOrNull(e[k])) && OptStrField(e, k) == OptStrField(d, k)
  {
  }

  lemma AgreeOptIntField(d: Dict, e: Dict, k: string)
    requires AgreeOn(d, e, k) && (k in d ==> IsIntOrNull(d[k]))
    ensures (k in e ==> IsIntOrNull(e[k])) && OptIntField(e, k) == OptIntField(d, k)
  {
  }

  /** Keys that are not fields make no difference to `from_dict`. */
  lemma FromDictDropsUnknownKeys(d: Dict, e: Dict, freshId: string, now: int)
    requires WellTyped(d) && AgreeOnFields(d, e)
    ensures WellTyped(e) && FromDict(e, freshId, now) == FromDict(d, freshId, now)
  {
    var base := DefaultItem(freshId, now);
    AgreeStrField(d, e, "id", base.id);
    AgreeStrField(d, e, "title", base.title);
    AgreeStrField(d, e, "description", base.description);
    AgreeStrField(d, e, "status", base.status);
    AgreeOptStrField(d, e, "scheduled_time");
    AgreeOptIntField(d, e, "completed_at");
    AgreeOptIntField(d, e, "last_reset_date");
  }

  /** The entries of d whose keys are field names: no other key, and the same entry for every field. */
  function KnownFields(d: Dict): (r: Dict)
    ensures r.Keys <= FieldNames
    ensures AgreeOnFields(d, r)
  {
    map k | k in d.Keys * FieldNames :: d[k]
  }

  /** Filtering a dictionary down to its field names, as `from_dict` does, keeps the item it describes. */
  lemma FromDictKnownFields(d: Dict, freshId: string, now: int)
    requires WellTyped(d)
    ensures WellTyped(KnownFields(d)) && FromDict(KnownFields(d), freshId, now) == FromDict(d, freshId, now)
  {
    FromDictDropsUnknownKeys(d, KnownFields(d), freshId, now);
  }

  /** An empty dictionary gives the defaults. */
  lemma FromEmptyDict(freshId: string, now: int)
    ensures FromDict(map[], freshId, now) == DefaultItem(freshId, now)
  {
  }
}
