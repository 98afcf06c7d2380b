# Break reminder: the managers, modelled in Dafny

This project models the scheduling and state logic of the break reminder
application (WalterSilva5/wsi-break-time): the four Qt "manager" modules
that decide when breaks, Pomodoro periods and recurring TODO reminders
happen.

- `timer.dfy` (module `Timer`) is the break scheduler `TimerManager`. It
  covers the countdown to the next break, the pre-notification before it,
  the one-second break ticks, pause/resume, skip and postpone, and the
  water reminder.
- `pomodoro.dfy` (module `Pomodoro`) is the Pomodoro cycle machine
  `PomodoroManager`. It has five states, a hidden direction flag for
  WAITING_CONFIRMATION, the short/long break rule and the status text.
- `todo_model.dfy` (module `TodoModel`) is the `TodoItem` dataclass. It
  covers the due and reset predicates, the "HH:MM" schedule parser, the
  two mutators, and `to_dict`/`from_dict`.
- `todo_manager.dfy` (module `Todos`) is the TODO collection `TodoManager`.
  It covers add/remove/update, the two-step completion with an
  eight-character code, the once-a-day announcement in the periodic check,
  and the midnight reset with its delay arithmetic.
- `common.dfy` (module `Common`) holds the shared definitions: `Option`, the
  QTimer state `Alarm`, and decimal numerals.

Each manager is built the same way.

- **A class.** Its fields are the source object's fields. Each QTimer is an
  `Alarm` (`Off`, or `Armed(ms)` with the interval it was started with), or
  a flag for a timer whose interval is fixed.
- **An event log.** Every `pyqtSignal` emission is appended to a ghost log
  of `Event`s.
- **State and transitions.** The class's observable state is a datatype
  (`TimerState`, `Pomodoro`, `TodoState`). Each source method has a pure
  transition function `After...` on that datatype. Each class method is
  proved to produce exactly `After...(old state)` and to keep the class
  invariant.
- **Properties.** These are lemmas about the transition functions, plus
  "run" lemmas over arbitrary sequences of calls and timer timeouts. Qt
  delivers a timeout only while its timer is active.
- **Inputs from outside.** `datetime.now()` is a `now` parameter: an integer
  millisecond timestamp for the scheduler, and a `Clock(day, msOfDay)` for
  the TODOs. `random.choices` is a `picks` parameter: eight positions in
  the 36-character alphabet.

Behaviours of the code a reader may not expect:

- A break of d seconds emits the ticks d-1, ..., 1, 0, because the counter
  is decremented before the signal is emitted (src/timer_manager.py:153-154,
  `Timer.BreakEndsAfterDuration`).
- `stop` does not clear `is_on_break`. A scheduler stopped during a break
  is both stopped and "on break", with its tick timer inactive
  (src/timer_manager.py:70-77, `Timer.StopDuringBreak`).
- `pause` keeps `next_break_time`, and `resume` starts a full new interval
  rather than the remaining time (src/timer_manager.py:79-88,
  `Timer.PauseResumeCountdown`).
- When the pre-notification does not fit, `_start_main_timer` leaves the
  pre-notify timer as it was rather than stopping it (src/timer_manager.py:130-132,
  `Timer.ArmCountdownRule`).
- `postpone_break` arms the main timer even when the scheduler is not
  running (src/timer_manager.py:100-105; `Timer.PostponeRule` has no
  `running` premise).

## Model

| member | source | states |
|---|---|---|
| Common.DigitsValueNonNegative | src/todo_model.py:50 | a string of decimal digits reads as a non-negative number |
| Common.DecimalRoundTrip | src/pomodoro_manager.py:135 | the decimal numeral of n is non-empty and reads back as n |
| Pomodoro.FourCycleRule | src/pomodoro_manager.py:163 | with four cycles to a long break, cycles 0 to 3 and 5 give a short break; cycles 4 and 8 give a long one |
| Pomodoro.Format02RoundTrip | src/pomodoro_manager.py:133-135 | the `02d` field of a non-negative number has at least two characters and reads back as the number |
| Pomodoro.Format02Short | src/pomodoro_manager.py:134-135 | a number below 100 is written with exactly two characters |
| Pomodoro.ClockTextRule | src/pomodoro_manager.py:133-135 | the `mm:ss` text of s reads back as s, and its seconds field is below 60 |
| Pomodoro.StatusTextShowsRemaining | src/pomodoro_manager.py:128-143 | for a timed state the text is the state's label followed by a clock that reads back as exactly the remaining seconds; the seconds field is below 60; the text depends only on state and seconds |
| Pomodoro.StatusTextUntimed | src/pomodoro_manager.py:130-131 | IDLE and WAITING_CONFIRMATION show their fixed texts, whatever the seconds |
| Pomodoro.StartRule | src/pomodoro_manager.py:89-97 | outside IDLE, start does nothing; from IDLE: WORKING, zero cycles, work_duration·60 seconds, only the work timer active, and signals pomodoro_started then state_changed("working") |
| Pomodoro.StopRule | src/pomodoro_manager.py:99-108 | from any state, stop gives the initial state (IDLE, zeros, every timer inactive) and signals state_changed("idle") then pomodoro_ended |
| Pomodoro.ConfirmRule | src/pomodoro_manager.py:110-122 | outside WAITING_CONFIRMATION confirm does nothing; inside, it stops the reminder, keeps the cycle count, and starts work after a break; after work it starts the long or the short break as `IsLongBreak` decides, with that break's seconds |
| Pomodoro.WorkTickRule | src/pomodoro_manager.py:174-213 | a work tick above one second only counts down and emits the new value; the tick reaching zero gives WAITING_CONFIRMATION towards a break with exactly one more cycle, the reminder on and the work timer off, and the exact signals tick, cycle_completed, state_changed("waiting"), confirmation_needed naming the cycle and the break kind |
| Pomodoro.BreakTickRule | src/pomodoro_manager.py:185-193 | a break tick reaching zero gives WAITING_CONFIRMATION towards work with the cycle count unchanged, and the exact signals tick, break_ended, state_changed, confirmation_needed |
| Pomodoro.ReminderRule | src/pomodoro_manager.py:215-218 | the reminder changes nothing but the log, and notifies exactly when waiting for a confirmation |
| Pomodoro.WaitingMessageMatchesBreak | src/pomodoro_manager.py:204-208 | the break kind the message announces (computed without `cycles > 0`) is the kind `_start_break` then picks after confirmation |
| Pomodoro.StepPreservesInv | src/pomodoro_manager.py:89-218 | every call or delivered timeout keeps the invariant: exactly the current state's timer is active, IDLE is all zeros, and breaks and waits come after at least one cycle |
| Pomodoro.RunPreservesInv | src/pomodoro_manager.py:89-218 | the invariant holds after any sequence of calls and timeouts |
| Pomodoro.RunAppend | src/pomodoro_manager.py:37-47 | running a + b is running a, then b |
| Pomodoro.WorkCountsDown | src/pomodoro_manager.py:174-179 | fewer work ticks than remaining seconds keep WORKING, with the seconds lowered by exactly the number of ticks |
| Pomodoro.WorkPeriodEnds | src/pomodoro_manager.py:174-183 | a work period of s seconds ends after exactly s ticks, waiting towards a break with one more cycle |
| Pomodoro.FirstCycleScenario | src/pomodoro_manager.py:89-97 | start, work_duration·60 ticks, then confirm: one cycle done, then a short break (a long one when every cycle ends in one) of the configured length |
| Pomodoro.PomodoroManager.constructor | src/pomodoro_manager.py:33-59 | the initial state and the default durations 25/5/15/4 |
| Pomodoro.PomodoroManager.Configure | src/pomodoro_manager.py:61-67 | changes the settings only |
| Pomodoro.PomodoroManager.Start | src/pomodoro_manager.py:89-97 | the new state is `AfterStart` of the old; invariant kept |
| Pomodoro.PomodoroManager.Stop | src/pomodoro_manager.py:99-108 | the new state is `AfterStop` of the old; invariant kept |
| Pomodoro.PomodoroManager.ConfirmNextCycle | src/pomodoro_manager.py:110-122 | the new state is `AfterConfirm` of the old; invariant kept |
| Pomodoro.PomodoroManager.EndSession | src/pomodoro_manager.py:124-126 | the same new state as stop |
| Pomodoro.PomodoroManager.SetState | src/pomodoro_manager.py:148-151 | changes the state and logs state_changed with the state's value |
| Pomodoro.PomodoroManager.StartWork | src/pomodoro_manager.py:153-158 | the new state is `AfterStartWork` of the old |
| Pomodoro.PomodoroManager.StartBreak | src/pomodoro_manager.py:160-172 | the new state is `AfterStartBreak` of the old |
| Pomodoro.PomodoroManager.OnWorkTimerTick | src/pomodoro_manager.py:174-183 | the new state is `AfterWorkTick` of the old; invariant kept |
| Pomodoro.PomodoroManager.OnBreakTimerTick | src/pomodoro_manager.py:185-193 | the new state is `AfterBreakTick` of the old; invariant kept |
| Pomodoro.PomodoroManager.EnterWaitingState | src/pomodoro_manager.py:195-213 | the new state is `AfterEnterWaiting` of the old, with the message `WaitingMessage` composes |
| Pomodoro.PomodoroManager.OnReminderTimer | src/pomodoro_manager.py:215-218 | the new state is `AfterReminder` of the old; invariant kept |
| Timer.TimeUntilBreak | src/timer_manager.py:111-116 | never negative; positive exactly when a target exists and lies ahead, and then equal to target − now |
| Timer.SessionDuration | src/timer_manager.py:118-122 | 0 without a session start; otherwise start + duration = now |
| Timer.ArmCountdownRule | src/timer_manager.py:124-132 | arms the main timer for minutes·60000 ms with target now + that; the pre-notification is armed exactly when pre > 0 and minutes·60 > pre, at minutes·60000 − pre·1000 ms, strictly between 0 and the break; otherwise that timer is left as it was; nothing else changes |
| Timer.StartRule | src/timer_manager.py:58-68 | a no-op while running; otherwise it sets running, records the session start, arms the full countdown (with the pre-notification when it fits), and arms the water timer, at water_interval·60000 ms, exactly when water_interval > 0 |
| Timer.TimeUntilBreakAfterStart | src/timer_manager.py:58-65 | right after a start the time until the break is the full interval |
| Timer.TimeUntilBreakMonotone | src/timer_manager.py:111-116 | the time until the break never grows as the clock advances |
| Timer.SessionDurationRule | src/timer_manager.py:118-122 | the duration is 0 before any start, and now − t0 after a start at t0 |
| Timer.StopRule | src/timer_manager.py:70-77 | stop clears running, stops all four timers and clears the target; breaks taken, the session start and the break flag stay |
| Timer.StopDuringBreak | src/timer_manager.py:70-77 | stopping during a break leaves the break flag set with its tick timer stopped |
| Timer.PauseResumeGuard | src/timer_manager.py:79-88 | pause and resume do nothing on a break or outside a session |
| Timer.PauseResumeCountdown | src/timer_manager.py:79-88 | while counting down, pause stops only the main and pre-notify timers; resume then arms a full fresh interval |
| Timer.StartBreakRule | src/timer_manager.py:134-149 | the main timeout stops the main timer and starts a break of break_duration seconds, with its tick timer on, signalling break_starting then break_started |
| Timer.EndBreakRule | src/timer_manager.py:159-167 | ending a break clears the flag, counts exactly one more break, signals break_ended, and arms a full countdown exactly when still running |
| Timer.SkipBreakRule | src/timer_manager.py:90-93 | skip ends a break; off a break it does nothing |
| Timer.BreakTickRule | src/timer_manager.py:151-157 | a tick lowers the remaining seconds by exactly one and emits the new value; at zero or below it ends the break |
| Timer.PostponeRule | src/timer_manager.py:95-109 | postponing ends any break (one more break taken), arms a countdown of m minutes whatever the interval, with target now + m minutes; the pre-notification is armed exactly when it fits, strictly before the break |
| Timer.PostponeAsWrittenNotifiesWhenDisabled | src/timer_manager.py:107-109 | as written, with pre-notifications disabled, postponing by 5 minutes schedules one at the moment of the break; the corrected version schedules none |
| Timer.PostponeAsWrittenRule | src/timer_manager.py:95-109 | as written, postponing ends any break, arms an m-minute countdown with target now + m minutes, and arms the pre-notification exactly when m·60 > pre, pre·1000 ms before the break; the invariant is kept |
| Timer.PostponeAgreesWhenEnabled | src/timer_manager.py:107-109 | with pre-notifications enabled the written and the corrected postpone agree |
| Timer.StepRule | src/timer_manager.py:58-171 | every call or delivered timeout keeps the invariant, never lowers breaks taken, and only appends to the log |
| Timer.ArmCountdownInv | src/timer_manager.py:124-132 | arming a countdown keeps the invariant (a pre-notification is always a positive delay ahead) |
| Timer.EndBreakInv | src/timer_manager.py:159-167 | ending a break keeps the invariant and strictly raises breaks taken |
| Timer.RunRule | src/timer_manager.py:58-171 | after any sequence of calls and timeouts the invariant holds; breaks taken and the log only grow |
| Timer.RunAppend | src/timer_manager.py:23-35 | running a + b is running a, then b |
| Timer.BreakCountsDown | src/timer_manager.py:151-157 | k ticks, fewer than the remaining seconds, lower them by k and emit d-1, ..., d-k |
| Timer.BreakEndsAfterDuration | src/timer_manager.py:151-167 | a break of d seconds ends after exactly d ticks, having emitted d-1, ..., 0, then the end of the break |
| Timer.OneMinuteScenario | src/timer_manager.py:58-68 | a one-minute interval with a five-second break: pre-notification at 30 s, break at 60 s, ticks 4..0, one break taken, next countdown armed |
| Timer.TimerManager.constructor | src/timer_manager.py:20-48 | the initial state and the defaults 20/20/30/0 |
| Timer.TimerManager.Configure | src/timer_manager.py:50-56 | changes the settings only |
| Timer.TimerManager.Start | src/timer_manager.py:58-68 | the new state is `AfterStart` of the old; invariant kept |
| Timer.TimerManager.Stop | src/timer_manager.py:70-77 | the new state is `AfterStop` of the old; invariant kept |
| Timer.TimerManager.Pause | src/timer_manager.py:79-83 | the new state is `AfterPause` of the old; invariant kept |
| Timer.TimerManager.Resume | src/timer_manager.py:85-88 | the new state is `AfterResume` of the old; invariant kept |
| Timer.TimerManager.SkipBreak | src/timer_manager.py:90-93 | the new state is `AfterSkipBreak` of the old; invariant kept |
| Timer.TimerManager.PostponeBreak | src/timer_manager.py:95-109 | the new state is the corrected `AfterPostpone` of the old; invariant kept |
| Timer.TimerManager.GetTimeUntilBreak | src/timer_manager.py:111-116 | the result is `TimeUntilBreak` of the state |
| Timer.TimerManager.GetSessionDuration | src/timer_manager.py:118-122 | the result is `SessionDuration` of the state |
| Timer.TimerManager.StartMainTimer | src/timer_manager.py:124-132 | the new state is `AfterStartMainTimer` of the old |
| Timer.TimerManager.OnMainTimerTimeout | src/timer_manager.py:134-137 | the new state is `AfterMainTimeout` of the old; invariant kept |
| Timer.TimerManager.OnPreNotify | src/timer_manager.py:139-141 | emits pre_notification with the configured seconds; the single-shot timer is spent |
| Timer.TimerManager.StartBreak | src/timer_manager.py:143-149 | the new state is `AfterStartBreak` of the old |
| Timer.TimerManager.OnBreakTimerTick | src/timer_manager.py:151-157 | the new state is `AfterBreakTick` of the old; invariant kept |
| Timer.TimerManager.EndBreak | src/timer_manager.py:159-167 | the new state is `AfterEndBreak` of the old |
| Timer.TimerManager.OnWaterReminder | src/timer_manager.py:169-171 | only emits water_reminder |
| Timer.TimerManager.TakeBreakNow | src/app.py:430-434 | stops the main and pre-notify timers and starts a break; invariant kept |
| TodoModel.ColonIndex | src/todo_model.py:50 | the position of the first ':' (or the length): no ':' before it |
| TodoModel.ParseTime | src/todo_model.py:50-51 | a well-formed "HH:MM" gives an hour below 24 and a minute below 60 |
| TodoModel.TwoDigitsValue | src/todo_model.py:26 | a two-digit field is all digits and reads back as its number |
| TodoModel.ParseFormatTime | src/todo_model.py:26 | formatting a time as "HH:MM" and parsing it gives the time back |
| TodoModel.ResetForNewDay | src/todo_model.py:64-68 | status pending, no completion time, reset today; every other field unchanged |
| TodoModel.MarkCompleted | src/todo_model.py:70-73 | status completed with the completion time; every other field unchanged |
| TodoModel.NotDueUnlessPending | src/todo_model.py:43-44 | an item that is not pending is never due |
| TodoModel.UnscheduledAlwaysDue | src/todo_model.py:46-47 | a pending item that is not recurring, or has no time, is due at every moment |
| TodoModel.ScheduledDueFrom | src/todo_model.py:49-54 | a pending recurring item at "HH:MM" is due exactly from HH:MM:00 of the day |
| TodoModel.NineOClockExample | src/todo_model.py:41-54 | "09:00": due from 9 o'clock on and not before while pending; never once completed |
| TodoModel.NeedsResetRule | src/todo_model.py:56-62 | never for non-recurring items; for recurring items exactly when not reset today |
| TodoModel.ResetRule | src/todo_model.py:64-68 | after a reset no reset is needed that day, and resetting again changes nothing |
| TodoModel.CompletedNotDue | src/todo_model.py:70-73 | a completed item is not due |
| TodoModel.ToDict | src/todo_model.py:32-34 | the dictionary has exactly the nine field names as keys |
| TodoModel.FromDictToDict | src/todo_model.py:32-39 | `from_dict(to_dict(x)) == x` |
| TodoModel.AgreeStrField | src/todo_model.py:39 | a string field reads the same from two dictionaries that agree on its key |
| TodoModel.AgreeOptStrField | src/todo_model.py:39 | an optional string field reads the same from two dictionaries that agree on its key |
| TodoModel.AgreeOptIntField | src/todo_model.py:39 | an optional number field reads the same from two dictionaries that agree on its key |
| TodoModel.FromDictDropsUnknownKeys | src/todo_model.py:36-39 | dictionaries that agree on the field names give the same item: other keys make no difference |
| TodoModel.KnownFields | src/todo_model.py:39 | the filtered dictionary has no key outside the field names and agrees with the input on every field name |
| TodoModel.FromDictKnownFields | src/todo_model.py:36-39 | filtering to the field names keeps the item the dictionary describes |
| TodoModel.FromEmptyDict | src/todo_model.py:18-30 | an empty dictionary gives the dataclass defaults |
| Todos.GenerateCode | src/todo_manager.py:130-133 | eight characters, each a capital letter or a digit |
| Todos.CodesMatchRule | src/todo_manager.py:122 | against a valid code, an entry matches exactly when it has eight characters equal to the code's up to letter case; the code and its lower-case form both match |
| Todos.Filter | src/todo_manager.py:65 | the survivors are exactly the elements satisfying the test, no more of them than the input has |
| Todos.FilterAppend | src/todo_manager.py:78 | filtering a + b is filtering a followed by filtering b: order is kept |
| Todos.FilterKeepsAll | src/todo_manager.py:78 | a list none of whose elements is dropped filters to itself |
| Todos.WithoutId | src/todo_manager.py:78 | exactly the items whose id differs; none carries the id |
| Todos.WithoutAbsentId | src/todo_manager.py:78 | removing an id no item has leaves the list as it was |
| Todos.DueTodos | src/todo_manager.py:63-65 | exactly the items that are due now |
| Todos.RecurringTodos | src/todo_manager.py:67-69 | exactly the recurring items |
| Todos.FindIndex | src/todo_manager.py:142-147 | the position of the first item with the id, or the length when there is none |
| Todos.FindIndexAbsent | src/todo_manager.py:142-147 | the search finds nothing exactly when no item has the id |
| Todos.ReplaceFirstRule | src/todo_manager.py:84-90 | updating writes the new item at the first matching position only; the set of ids is unchanged |
| Todos.ReplaceFirstAbsent | src/todo_manager.py:84-90 | with no matching id the list is unchanged |
| Todos.Refresh | src/todo_manager.py:152-156 | keeps id and schedule; needs no reset afterwards; a recurring item is marked reset today; a non-recurring item is untouched |
| Todos.CheckItem | src/todo_manager.py:151-161 | the announced set changes only at the item's id; the id is marked when the refreshed item is due; a due signal is emitted only for a due item whose id was not yet announced |
| Todos.CheckAll | src/todo_manager.py:149-161 | the resulting list has each item refreshed in place |
| Todos.CheckResetsRecurring | src/todo_manager.py:149-156 | after a check every recurring item is reset today and needs no reset; the others are untouched |
| Todos.CheckNotifiesDue | src/todo_manager.py:158-161 | with distinct ids, every item due after the check has its id announced |
| Todos.CheckNotifiedWithin | src/todo_manager.py:155-161 | the announced set grows only by ids of items due after the check |
| Todos.CheckEventsAreDueItems | src/todo_manager.py:158-161 | every due signal carries an item of the new list that is due |
| Todos.CheckWithoutResets | src/todo_manager.py:158-161 | with no reset due, the list is unchanged, the set only grows, and only ids not yet announced are announced |
| Todos.NotifiedOncePerDay | src/todo_manager.py:149-161 | with distinct ids, a second check on the same day announces none of the items the first announced |
| Todos.CheckAnnouncesPending | src/todo_manager.py:149-161 | with distinct ids and nothing announced or due for reset, the check's signals are exactly the due signals of `get_pending_todos`, in order |
| Todos.PendingItemEvents | src/todo_manager.py:158-161 | an item needing no reset and not announced yields exactly its own due signal, if it is due |
| Todos.DueSnoc | src/todo_manager.py:63-65 | one more item adds its due signal, if any, at the end |
| Todos.DueIdsListed | src/todo_manager.py:63-65 | the due items' ids are ids of the list |
| Todos.CheckFromNothing | src/todo_manager.py:149-161 | with distinct ids, a check from an empty set announces exactly the ids of the due items |
| Todos.MsUntilMidnight | src/todo_manager.py:163-170 | the delay lands exactly on 00:00:01 of the next day, and lies in (1000, 86401000] |
| Todos.MidnightReset | src/todo_manager.py:175-177 | the list keeps its length |
| Todos.MidnightRule | src/todo_manager.py:172-179 | every recurring item becomes pending with no completion time, reset today; other items are untouched; ids unchanged |
| Todos.RemoveRule | src/todo_manager.py:76-82 | no item carries the id; the others keep their order; the id leaves the pending map and the announced set; other codes stay |
| Todos.UpdateAbsentRule | src/todo_manager.py:84-90 | updating with an absent id only signals todos_changed |
| Todos.RequestUnknownRule | src/todo_manager.py:98-100 | an unknown id returns None and changes nothing |
| Todos.RequestKnownRule | src/todo_manager.py:92-111 | a recurring item gets a valid code, stored and returned, with the items untouched (still pending); a non-recurring item is completed at once and None is returned |
| Todos.VerifyRejectRule | src/todo_manager.py:113-128 | no pending code, a mismatch, or a missing item: false and no change |
| Todos.VerifyAcceptRule | src/todo_manager.py:113-128 | a match completes the first item with the id, drops its code and announcement, signals todo_completed and todos_changed, and returns true |
| Todos.RequestThenVerify | src/todo_manager.py:92-128 | asking to complete a recurring item, then typing the code, even in lower case, completes it |
| Todos.CheckPreservesInv | src/todo_manager.py:149-161 | the check keeps the invariant: schedules parse, only listed ids are announced, codes are valid, the midnight delay is in range |
| Todos.CompletePreservesInv | src/todo_manager.py:135-140 | completing keeps the invariant |
| Todos.AddPreservesInv | src/todo_manager.py:71-74 | adding keeps the invariant |
| Todos.RemovePreservesInv | src/todo_manager.py:76-82 | removing keeps the invariant |
| Todos.StepPreservesInv | src/todo_manager.py:42-179 | every call or delivered timeout keeps the invariant |
| Todos.UpdatePreservesInv | src/todo_manager.py:84-90 | updating keeps the invariant |
| Todos.RequestPreservesInv | src/todo_manager.py:92-111 | asking to complete keeps the invariant |
| Todos.VerifyPreservesInv | src/todo_manager.py:113-128 | verifying keeps the invariant |
| Todos.MidnightPreservesInv | src/todo_manager.py:172-179 | the midnight reset keeps the invariant |
| Todos.SetTodosRule | src/todo_manager.py:53-57 | loading forgets earlier announcements: each item is refreshed, and with distinct ids exactly the due items are announced; codes stay |
| Todos.TodoManager.constructor | src/todo_manager.py:24-40 | the initial state: no items, nothing announced, no codes, timers inactive |
| Todos.TodoManager.Start | src/todo_manager.py:42-46 | the new state is `AfterStart` of the old; invariant kept |
| Todos.TodoManager.Stop | src/todo_manager.py:48-51 | both timers inactive, nothing else changed |
| Todos.TodoManager.SetTodos | src/todo_manager.py:53-57 | the new state is `AfterSetTodos` of the old; invariant kept |
| Todos.TodoManager.GetPendingTodos | src/todo_manager.py:63-65 | exactly the listed items that are due now |
| Todos.TodoManager.GetRecurringTodos | src/todo_manager.py:67-69 | exactly the listed recurring items |
| Todos.TodoManager.AddTodo | src/todo_manager.py:71-74 | the new state is `AfterAdd` of the old; invariant kept |
| Todos.TodoManager.RemoveTodo | src/todo_manager.py:76-82 | the new state is `AfterRemove` of the old; invariant kept |
| Todos.TodoManager.UpdateTodo | src/todo_manager.py:84-90 | the loop's result is `AfterUpdate` of the old state (first match only); invariant kept |
| Todos.TodoManager.FindTodo | src/todo_manager.py:142-147 | the loop returns the first position with the id, as `FindIndex` |
| Todos.TodoManager.CompleteTodo | src/todo_manager.py:135-140 | the new state is `AfterComplete` of the old; invariant kept |
| Todos.TodoManager.RequestCompletion | src/todo_manager.py:92-111 | the new state and the result are `AfterRequest` of the old; invariant kept |
| Todos.TodoManager.VerifyAndComplete | src/todo_manager.py:113-128 | the new state and the result are `AfterVerify` of the old; invariant kept |
| Todos.TodoManager.CheckTodos | src/todo_manager.py:149-161 | the new state is `AfterCheck` of the old; invariant kept |
| Todos.TodoManager.ScheduleMidnightReset | src/todo_manager.py:163-170 | the midnight timer armed for `MsUntilMidnight(now)` |
| Todos.TodoManager.CheckMidnightReset | src/todo_manager.py:172-179 | the loop's result is `AfterMidnight` of the old state; invariant kept |
| Todos.CheckOne | src/todo_manager.py:152-161 | the loop body for one item computes `CheckItem` |
| Todos.CheckPass | src/todo_manager.py:151-161 | the loop over the list computes `CheckAll` |
| Todos.CheckAllSnoc | src/todo_manager.py:151-161 | checking one more item is checking the prefix, then that item |
| Todos.FindIndexFirst | src/todo_manager.py:144-146 | a first match at k is what `FindIndex` returns |

## Left out

- The Qt event loop, signal delivery and real time. A QTimer is its state
  (`Alarm` or a flag), and a timeout is an input that is delivered only
  while its timer is active. Time passing between events is not modelled.
- `datetime.now()` is a parameter. Where one source method reads the clock
  several times, the model uses a single `now`.
- Time is counted in milliseconds, not Python's microseconds. The midnight
  delay is therefore exact, where `int(... * 1000)` truncates
  sub-millisecond remainders.
- Local time, time zones and DST are not modelled. A day is 86 400 000 ms.
- ISO-8601 strings are numbers. `completed_at` and `created_at` are
  millisecond timestamps, and `last_reset_date` is a day number.
- `random.choices` is the `picks` parameter: eight positions below 36.
- The Portuguese message texts of `confirmation_needed` are a `Message`
  datatype carrying only the facts they report. The status text keeps its
  literal labels.
- The read-only properties `state`, `cycles_completed`, `seconds_remaining`
  and `is_active` of the Pomodoro manager are not separate members; they
  are the class's fields.
- Items are values. The aliasing of `TodoItem` objects is not modelled:
  signals carry the object, and `set_todos` keeps the caller's list.
- `str.upper()` is modelled on ASCII letters only. Python's full Unicode
  case mapping (for instance 'ſ' to 'S') is not modelled.
- Python's `int()` leniency is not modelled: surrounding whitespace, a
  sign, and non-ASCII digits in "HH:MM" are not accepted.
- Pomodoro.PomodoroManager.Configure: requires `cycles_before_long_break > 0`.
  The source accepts 0 and then fails with a division by zero at the next
  break.
- Todos.TodoManager.AddTodo: requires the item's schedule to parse
  (`ScheduleParses`). With a malformed time `is_due` raises `ValueError`;
  the model excludes such items instead of modelling the exception.
  UpdateTodo and SetTodos have the same requirement.
- Todos.TodoManager.GetPendingTodos: requires `Valid()`, which includes
  that every schedule parses, for the same reason.
- TodoModel.FromDictDropsUnknownKeys: needs `WellTyped`, that each field
  present holds a value of the field's type. Python's dataclass accepts
  values of any type.
- Todos.CheckNotifiesDue: assumes distinct ids. With repeated ids the
  source announces only the first of them; `NotifiedOncePerDay`,
  `CheckAnnouncesPending`, `CheckFromNothing` and `SetTodosRule` make the
  same assumption.
- Timer.TimerManager.PostponeBreak: follows the corrected pre-notification
  guard (see Findings). The code as written is `Timer.AfterPostponeAsWritten`.

## Findings

| source | as written | input that shows it | evidently intended | confidence | as-written member | corrected member |
|---|---|---|---|---|---|---|
| src/timer_manager.py:107 | `postpone_break` arms the pre-notification when `minutes * 60 > pre_notification_seconds`, without the `pre_notification_seconds > 0` test of `_start_main_timer` (line 130) | configuration (20, 20, 0, 0) with pre-notifications disabled, then `postpone_break(5)`: the pre-notify timer is armed for 300000 ms, the moment of the break, and announces a break "in 0 seconds" | the same guard as line 130: no pre-notification when it is disabled | not executed | Timer.PostponeAsWrittenNotifiesWhenDisabled | Timer.PostponeRule |
