/**
 * The break scheduler of src/timer_manager.py.
 *
 * `TimerState` is the scheduler's state; each operation is a transition
 * function `After...` on it, and the class `TimerManager` keeps the source's
 * fields and proves each method against its transition. A QTimer is an
 * `Alarm`: inactive, or active with the interval it was started with, in
 * milliseconds. Every signal emission is appended to a log of `Event`s.
 * The clock is a parameter `now`: a timestamp in milliseconds.
 */
module Timer {
  import opened Common

  const MsPerSecond := 1000
  const MsPerMinute := 60 * 1000

  /** `break_interval` and `water_interval` are minutes; the other two are seconds. */
  datatype Config = Config(breakInterval: int, breakDuration: int,
                           preNotificationSeconds: int, waterInterval: int)

  /** The values the constructor installs. */
  const DefaultConfig := Config(20, 20, 30, 0)

  /** The signals of TimerManager. */
  datatype Event =
    | BreakStarting
    | BreakStarted
    | BreakEnded
    | Tick(seconds: int)
    | PreNotification(seconds: int)
    | WaterReminder

  /**
   * The scheduler's state; `breakTimer` is the 1-second break timer, whose
   * interval never changes, so only whether it is active matters.
   */
  datatype TimerState = TimerState(
    running: bool,
    onBreak: bool,
    breakSecondsRemaining: int,
    breaksTaken: nat,
    nextBreakTime: Option<int>,
    sessionStartTime: Option<int>,
    mainTimer: Alarm,
    breakTimer: bool,
    preNotifyTimer: Alarm,
    waterTimer: Alarm,
    log: seq<Event>)

  /** The state right after construction. */
  const Initial := TimerState(false, false, 0, 0, None, None, Off, false, Off, Off, [])

  /**
   * What every reachable state satisfies: the break timer only ticks during a
   * break, the water timer only runs in a session, a session has a start
   * time, an active main timer has a target time, and a pre-notification is
   * always scheduled a positive delay ahead.
   */
  predicate Inv(s: TimerState)
  {
    && (s.breakTimer ==> s.onBreak)
    && (s.waterTimer.Armed? ==> s.running)
    && (s.running ==> s.sessionStartTime.Some?)
    && (s.mainTimer.Armed? ==> s.nextBreakTime.Some?)
    && (s.preNotifyTimer.Armed? ==> s.preNotifyTimer.ms > 0)
  }

  // ---------------------------------------------------------------------------
  // Transitions
  // ---------------------------------------------------------------------------

  /** Whether a pre-notification `pre` seconds ahead is scheduled for a countdown of `minutes`. */
  predicate PreNotifyFits(minutes: int, pre: int)
  {
    pre > 0 && minutes * 60 > pre
  }

  /**
   * `_start_main_timer` with the countdown length as a parameter: the main
   * timer for `minutes`, the target time, and the pre-notification when it
   * fits (otherwise the pre-notify timer is left as it was).
   */
  function ArmCountdown(s: TimerState, pre: int, minutes: int, now: int): TimerState
  {
    var delayMs := minutes * MsPerMinute;
    var q := s.(mainTimer := Armed(delayMs), nextBreakTime := Some(now + minutes * MsPerMinute));
    if PreNotifyFits(minutes, pre) then q.(preNotifyTimer := Armed(delayMs - pre * MsPerSecond)) else q
  }

  /** `_start_main_timer`: a full `break_interval` countdown. */
  function AfterStartMainTimer(s: TimerState, c: Config, now: int): TimerState
  {
    ArmCountdown(s, c.preNotificationSeconds, c.breakInterval, now)
  }

  /** `start`: no-op when running; otherwise a new session, a full countdown, and the water timer. */
  function AfterStart(s: TimerState, c: Config, now: int): TimerState
  {
    if s.running then s
    else
      var q := AfterStartMainTimer(s.(running := true, sessionStartTime := Some(now)), c, now);
      if c.waterInterval > 0 then q.(waterTimer := Armed(c.waterInterval * MsPerMinute)) else q
  }

  /** `stop`: every timer inactive and no target; the break flag and the session data stay. */
  function AfterStop(s: TimerState): TimerState
  {
    s.(running := false, mainTimer := Off, breakTimer := false, preNotifyTimer := Off,
       waterTimer := Off, nextBreakTime := None)
  }

  /** `pause`: only while counting down; stops the main and pre-notify timers. */
  function AfterPause(s: TimerState): TimerState
  {
    if s.running && !s.onBreak then s.(mainTimer := Off, preNotifyTimer := Off) else s
  }

  /** `resume`: only while counting down; a fresh full countdown. */
  function AfterResume(s: TimerState, c: Config, now: int): TimerState
  {
    if s.running && !s.onBreak then AfterStartMainTimer(s, c, now) else s
  }

  /** `_start_break`. */
  function AfterStartBreak(s: TimerState, c: Config): TimerState
  {
    s.(onBreak := true, breakSecondsRemaining := c.breakDuration,
       log := s.log + [BreakStarting, BreakStarted], breakTimer := true)
  }

  /** `_on_main_timer_timeout`. */
  function AfterMainTimeout(s: TimerState, c: Config): TimerState
  {
    AfterStartBreak(s.(mainTimer := Off), c)
  }

  /** `_on_pre_notify`; the pre-notify timer is single-shot, so it is inactive afterwards. */
  function AfterPreNotify(s: TimerState, c: Config): TimerState
  {
    s.(preNotifyTimer := Off, log := s.log + [PreNotification(c.preNotificationSeconds)])
  }

  /** `_on_water_reminder`; the water timer repeats. */
  function AfterWaterReminder(s: TimerState): TimerState
  {
    s.(log := s.log + [WaterReminder])
  }

  /** `_end_break`: one more break taken, and a new countdown if still running. */
  function AfterEndBreak(s: TimerState, c: Config, now: int): TimerState
  {
    var q := s.(breakTimer := false, onBreak := false, breaksTaken := s.breaksTaken + 1,
                log := s.log + [BreakEnded]);
    if q.running then AfterStartMainTimer(q, c, now) else q
  }

  /** `_on_break_timer_tick`. */
  function AfterBreakTick(s: TimerState, c: Config, now: int): TimerState
  {
    var r := s.breakSecondsRemaining - 1;
    var q := s.(breakSecondsRemaining := r, log := s.log + [Tick(r)]);
    if r <= 0 then AfterEndBreak(q, c, now) else q
  }

  /** `skip_break`: ends the break, if there is one. */
  function AfterSkipBreak(s: TimerState, c: Config, now: int): TimerState
  {
    if s.onBreak then AfterEndBreak(s, c, now) else s
  }

  /**
   * `postpone_break` as the source writes it: the pre-notification guard
   * lacks the `pre_notification_seconds > 0` test of `_start_main_timer`.
   */
  function AfterPostponeAsWritten(s: TimerState, c: Config, minutes: int, now: int): TimerState
  {
    var q := if s.onBreak then AfterEndBreak(s, c, now) else s;
    var delayMs := minutes * MsPerMinute;
    var q' := q.(mainTimer := Armed(delayMs), preNotifyTimer := Off,
                 nextBreakTime := Some(now + minutes * MsPerMinute));
    if minutes * 60 > c.preNotificationSeconds
    then q'.(preNotifyTimer := Armed(delayMs - c.preNotificationSeconds * MsPerSecond))
    else q'
  }

  /**
   * `postpone_break` as intended: end any break, stop both timers, and arm a
   * countdown of `minutes` with the same pre-notification rule as a full one.
   */
  function AfterPostpone(s: TimerState, c: Config, minutes: int, now: int): TimerState
  {
    var q := if s.onBreak then AfterEndBreak(s, c, now) else s;
    ArmCountdown(q.(mainTimer := Off, preNotifyTimer := Off), c.preNotificationSeconds, minutes, now)
  }

  /** `_take_break_now` of the application (src/app.py): stop the countdown and start a break. */
  function AfterTakeBreakNow(s: TimerState, c: Config): TimerState
  {
    AfterStartBreak(s.(mainTimer := Off, preNotifyTimer := Off), c)
  }

  /** `get_time_until_break`, in milliseconds. */
  function TimeUntilBreak(s: TimerState, now: int): (r: int)
    ensures r >= 0
    ensures r > 0 <==> s.nextBreakTime.Some? && s.nextBreakTime.value > now
    ensures r > 0 ==> r == s.nextBreakTime.value - now
  {
    match s.nextBreakTime
    case None => 0
    case Some(t) => if t - now > 0 then t - now else 0
  }

  /** `get_session_duration`, in milliseconds. */
  function SessionDuration(s: TimerState, now: int): (r: int)
    ensures s.sessionStartTime.None? ==> r == 0
    ensures s.sessionStartTime.Some? ==> s.sessionStartTime.value + r == now
  {
    match s.sessionStartTime
    case None => 0
    case Some(t) => now - t
  }

  // ---------------------------------------------------------------------------
  // Properties of single transitions
  // ---------------------------------------------------------------------------

  /**
   * A countdown of `minutes` arms the pre-notification exactly when it fits,
   * and then strictly between now and the break.
   */
  lemma ArmCountdownRule(s: TimerState, pre: int, minutes: int, now: int)
    ensures var q := ArmCountdown(s, pre, minutes, now);
      && q.mainTimer == Armed(minutes * MsPerMinute)
      && q.nextBreakTime == Some(now + minutes * MsPerMinute)
      && (PreNotifyFits(minutes, pre) ==>
            q.preNotifyTimer == Armed(minutes * MsPerMinute - pre * MsPerSecond)
            && 0 < q.preNotifyTimer.ms < minutes * MsPerMinute)
      && (!PreNotifyFits(minutes, pre) ==> q.preNotifyTimer == s.preNotifyTimer)
      && q.(mainTimer := s.mainTimer, nextBreakTime := s.nextBreakTime, preNotifyTimer := s.preNotifyTimer) == s
  {
  }

  /** `start` is a no-op while running; otherwise it opens a session with a full countdown. */
  lemma StartRule(s: TimerState, c: Config, now: int)
    requires Inv(s)
    ensures s.running ==> AfterStart(s, c, now) == s
    ensures !s.running ==>
      var q := AfterStart(s, c, now);
      && q.running && q.sessionStartTime == Some(now)
      && q.nextBreakTime == Some(now + c.breakInterval * MsPerMinute)
      && q.mainTimer == Armed(c.breakInterval * MsPerMinute)
      && q.preNotifyTimer == (if PreNotifyFits(c.breakInterval, c.preNotificationSeconds)
                              then Armed(c.breakInterval * MsPerMinute - c.preNotificationSeconds * MsPerSecond)
                              else s.preNotifyTimer)
      && (q.waterTimer.Armed? <==> c.waterInterval > 0)
      && (c.waterInterval > 0 ==> q.waterTimer.ms == c.waterInterval * MsPerMinute)
      && q.onBreak == s.onBreak && q.breaksTaken == s.breaksTaken && q.log == s.log
  {
  }

  /** Right after a start, the time until the break is the full interval. */
  lemma TimeUntilBreakAfterStart(s: TimerState, c: Config, now: int)
    requires !s.running && c.breakInterval > 0
    ensures TimeUntilBreak(AfterStart(s, c, now), now) == c.breakInterval * MsPerMinute
  {
  }

  /** The time until the break never grows as the clock advances. */
  lemma TimeUntilBreakMonotone(s: TimerState, t1: int, t2: int)
    requires t1 <= t2
    ensures TimeUntilBreak(s, t2) <= TimeUntilBreak(s, t1)
  {
  }

  /** Before any start there is no session; after a start the duration counts from it. */
  lemma SessionDurationRule(c: Config, t0: int, now: int)
    ensures SessionDuration(Initial, now) == 0
    ensures SessionDuration(AfterStart(Initial, c, t0), now) == now - t0
  {
  }

  /** `stop` stops every timer and clears the target; breaks taken and the session start stay. */
  lemma StopRule(s: TimerState)
    ensures var q := AfterStop(s);
      && !q.running && q.mainTimer == Off && !q.breakTimer && q.preNotifyTimer == Off
      && q.waterTimer == Off && q.nextBreakTime == None
      && q.breaksTaken == s.breaksTaken && q.sessionStartTime == s.sessionStartTime
      && q.onBreak == s.onBreak && q.log == s.log
      && TimeUntilBreak(q, 0) == 0
  {
  }

  /**
   * `stop` during a break leaves the break flag set with its tick timer
   * stopped: the states "stopped" and "on break" are not exclusive.
   */
  lemma StopDuringBreak(c: Config, t0: int)
    ensures var q := AfterStop(AfterMainTimeout(AfterStart(Initial, c, t0), c));
      !q.running && q.onBreak && !q.breakTimer
  {
  }

  /** `pause` and `resume` do nothing on a break or outside a session. */
  lemma PauseResumeGuard(s: TimerState, c: Config, now: int)
    requires s.onBreak || !s.running
    ensures AfterPause(s) == s && AfterResume(s, c, now) == s
  {
  }

  /**
   * While counting down, `pause` stops only the main and pre-notify timers,
   * and `resume` arms a fresh full interval (what had elapsed is lost).
   */
  lemma PauseResumeCountdown(s: TimerState, c: Config, now: int)
    requires s.running && !s.onBreak
    ensures AfterPause(s) == s.(mainTimer := Off, preNotifyTimer := Off)
    ensures var q := AfterResume(AfterPause(s), c, now);
      && q.mainTimer == Armed(c.breakInterval * MsPerMinute)
      && TimeUntilBreak(q, now) == (if c.breakInterval > 0 then c.breakInterval * MsPerMinute else 0)
  {
  }

  /** A break starts with the configured seconds and its tick timer active. */
  lemma StartBreakRule(s: TimerState, c: Config)
    ensures var q := AfterMainTimeout(s, c);
      && q.onBreak && q.breakTimer && q.breakSecondsRemaining == c.breakDuration
      && q.mainTimer == Off && q.log == s.log + [BreakStarting, BreakStarted]
  {
  }

  /**
   * Ending a break clears the flag, counts exactly one more break, and arms a
   * full countdown exactly when the session is still running.
   */
  lemma EndBreakRule(s: TimerState, c: Config, now: int)
    ensures var q := AfterEndBreak(s, c, now);
      && !q.onBreak && !q.breakTimer && q.breaksTaken == s.breaksTaken + 1
      && q.log == s.log + [BreakEnded]
      && (s.running ==> q.mainTimer == Armed(c.breakInterval * MsPerMinute)
                        && q.nextBreakTime == Some(now + c.breakInterval * MsPerMinute))
      && (!s.running ==> q.mainTimer == s.mainTimer && q.nextBreakTime == s.nextBreakTime)
  {
  }

  /** `skip_break` ends a break; off a break it does nothing. */
  lemma SkipBreakRule(s: TimerState, c: Config, now: int)
    ensures !s.onBreak ==> AfterSkipBreak(s, c, now) == s
    ensures s.onBreak ==> AfterSkipBreak(s, c, now) == AfterEndBreak(s, c, now)
  {
  }

  /** A tick counts exactly one second down and ends the break when it reaches zero. */
  lemma BreakTickRule(s: TimerState, c: Config, now: int)
    ensures var q := AfterBreakTick(s, c, now);
      && (s.breakSecondsRemaining > 1 ==>
            q == s.(breakSecondsRemaining := s.breakSecondsRemaining - 1,
                     log := s.log + [Tick(s.breakSecondsRemaining - 1)]))
      && (s.breakSecondsRemaining <= 1 ==>
            q == AfterEndBreak(s.(breakSecondsRemaining := s.breakSecondsRemaining - 1,
                                  log := s.log + [Tick(s.breakSecondsRemaining - 1)]), c, now))
  {
  }

  /**
   * `postpone_break(minutes)` ends any break, then counts down `minutes`
   * whatever the interval, with the pre-notification exactly when it fits,
   * strictly before the break.
   */
  lemma PostponeRule(s: TimerState, c: Config, minutes: int, now: int)
    ensures var q := AfterPostpone(s, c, minutes, now);
      && !q.onBreak
      && q.breaksTaken == (if s.onBreak then s.breaksTaken + 1 else s.breaksTaken)
      && q.mainTimer == Armed(minutes * MsPerMinute)
      && q.nextBreakTime == Some(now + minutes * MsPerMinute)
      && (q.preNotifyTimer.Armed? <==> PreNotifyFits(minutes, c.preNotificationSeconds))
      && (q.preNotifyTimer.Armed? ==> 0 < q.preNotifyTimer.ms < minutes * MsPerMinute)
      && TimeUntilBreak(q, now) == (if minutes > 0 then minutes * MsPerMinute else 0)
  {
  }

  /**
   * As written, postponing while pre-notifications are disabled (0 seconds)
   * still schedules one, at the very moment of the break.
   */
  lemma PostponeAsWrittenNotifiesWhenDisabled(s: TimerState, now: int)
    ensures var c := Config(20, 20, 0, 0);
      var q := AfterPostponeAsWritten(s, c, 5, now);
      && q.preNotifyTimer == Armed(5 * MsPerMinute)
      && q.preNotifyTimer.ms == q.mainTimer.ms
      && AfterPostpone(s, c, 5, now).preNotifyTimer == Off
  {
  }

  /**
   * `postpone_break(minutes)` as written: it ends any break, counts down
   * `minutes`, and arms the pre-notification exactly when `minutes * 60`
   * exceeds the configured seconds, `pre * 1000` ms before the break; the
   * scheduler's invariant is kept.
   */
  lemma PostponeAsWrittenRule(s: TimerState, c: Config, minutes: int, now: int)
    requires Inv(s)
    ensures var q := AfterPostponeAsWritten(s, c, minutes, now);
      && !q.onBreak
      && q.breaksTaken == (if s.onBreak then s.breaksTaken + 1 else s.breaksTaken)
      && q.mainTimer == Armed(minutes * MsPerMinute)
      && q.nextBreakTime == Some(now + minutes * MsPerMinute)
      && (q.preNotifyTimer.Armed? <==> minutes * 60 > c.preNotificationSeconds)
      && (q.preNotifyTimer.Armed? ==>
            q.preNotifyTimer.ms == minutes * MsPerMinute - c.preNotificationSeconds * MsPerSecond)
      && Inv(q)
  {
    if s.onBreak {
      EndBreakInv(s, c, now);
    }
  }

  /** The two postpones agree whenever pre-notifications are enabled. */
  lemma PostponeAgreesWhenEnabled(s: TimerState, c: Config, minutes: int, now: int)
    requires c.preNotificationSeconds > 0
    ensures AfterPostponeAsWritten(s, c, minutes, now) == AfterPostpone(s, c, minutes, now)
  {
  }

  // ---------------------------------------------------------------------------
  // Runs of events
  // ---------------------------------------------------------------------------

  /** What can happen to the scheduler: a call, or the timeout of a timer. */
  datatype Input =
    | UserStart(now: int)
    | UserStop
    | UserPause
    | UserResume(now: int)
    | UserSkipBreak(now: int)
    | UserPostpone(minutes: int, now: int)
    | UserTakeBreakNow
    | MainTimeout
    | PreNotifyTimeout
    | WaterTimeout
    | BreakTimerTick(now: int)

  /** Qt only delivers the timeout of an active timer; calls are always delivered. */
  predicate Delivered(s: TimerState, i: Input)
  {
    match i
    case MainTimeout => s.mainTimer.Armed?
    case PreNotifyTimeout => s.preNotifyTimer.Armed?
    case WaterTimeout => s.waterTimer.Armed?
    case BreakTimerTick(_) => s.breakTimer
    case _ => true
  }

  function Step(s: TimerState, c: Config, i: Input): TimerState
  {
    match i
    case UserStart(now) => AfterStart(s, c, now)
    case UserStop => AfterStop(s)
    case UserPause => AfterPause(s)
    case UserResume(now) => AfterResume(s, c, now)
    case UserSkipBreak(now) => AfterSkipBreak(s, c, now)
    case UserPostpone(m, now) => AfterPostpone(s, c, m, now)
    case UserTakeBreakNow => AfterTakeBreakNow(s, c)
    case MainTimeout => AfterMainTimeout(s, c)
    case PreNotifyTimeout => AfterPreNotify(s, c)
    case WaterTimeout => AfterWaterReminder(s)
    case BreakTimerTick(now) => AfterBreakTick(s, c, now)
  }

  /** The state after a sequence of inputs; inputs Qt would not deliver are skipped. */
  function Run(s: TimerState, c: Config, inputs: seq<Input>): TimerState
    decreases |inputs|
  {
    if inputs == [] then s
    else Run(if Delivered(s, inputs[0]) then Step(s, c, inputs[0]) else s, c, inputs[1..])
  }

  /** Each step keeps `Inv`, never lowers the break count, and only appends to the log. */
  lemma StepRule(s: TimerState, c: Config, i: Input)
    requires Inv(s) && Delivered(s, i)
    ensures var q := Step(s, c, i);
      Inv(q) && s.breaksTaken <= q.breaksTaken && s.log <= q.log
  {
    match i
    case UserStart(now) =>
      if !s.running {
        ArmCountdownInv(s.(running := true, sessionStartTime := Some(now)), c.preNotificationSeconds, c.breakInterval, now);
      }
    case UserStop =>
    case UserPause =>
    case UserResume(now) =>
      ArmCountdownInv(s, c.preNotificationSeconds, c.breakInterval, now);
    case UserSkipBreak(now) =>
      EndBreakInv(s, c, now);
    case UserPostpone(m, now) =>
      var q := if s.onBreak then AfterEndBreak(s, c, now) else s;
      EndBreakInv(s, c, now);
      ArmCountdownInv(q.(mainTimer := Off, preNotifyTimer := Off), c.preNotificationSeconds, m, now);
    case UserTakeBreakNow =>
    case MainTimeout =>
    case PreNotifyTimeout =>
    case WaterTimeout =>
    case BreakTimerTick(now) =>
      var r := s.breakSecondsRemaining - 1;
      EndBreakInv(s.(breakSecondsRemaining := r, log := s.log + [Tick(r)]), c, now);
  }

  /** Arming a countdown keeps `Inv`: the pre-notification it sets is a positive delay ahead. */
  lemma ArmCountdownInv(s: TimerState, pre: int, minutes: int, now: int)
    requires Inv(s)
    ensures var q := ArmCountdown(s, pre, minutes, now);
      Inv(q) && q.breaksTaken == s.breaksTaken && q.log == s.log
  {
  }

  /** Ending a break keeps `Inv`, counts one more break and only appends to the log. */
  lemma EndBreakInv(s: TimerState, c: Config, now: int)
    requires Inv(s)
    ensures var q := AfterEndBreak(s, c, now);
      Inv(q) && s.breaksTaken < q.breaksTaken && s.log <= q.log
  {
    var q := s.(breakTimer := false, onBreak := false, breaksTaken := s.breaksTaken + 1,
                log := s.log + [BreakEnded]);
    ArmCountdownInv(q, c.preNotificationSeconds, c.breakInterval, now);
  }

  /** Every reachable state satisfies `Inv`; breaks taken and the log only grow. */
  lemma {:induction false} RunRule(s: TimerState, c: Config, inputs: seq<Input>)
    requires Inv(s)
    ensures var q := Run(s, c, inputs);
      Inv(q) && s.breaksTaken <= q.breaksTaken && s.log <= q.log
    decreases |inputs|
  {
    if inputs != [] {
      var s' := if Delivered(s, inputs[0]) then Step(s, c, inputs[0]) else s;
      if Delivered(s, inputs[0]) {
        StepRule(s, c, inputs[0]);
      }
      RunRule(s', c, inputs[1..]);
    }
  }

  lemma {:induction false} RunAppend(s: TimerState, c: Config, a: seq<Input>, b: seq<Input>)
    ensures Run(s, c, a + b) == Run(Run(s, c, a), c, b)
    decreases |a|
  {
    if a != [] {
      var s' := if Delivered(s, a[0]) then Step(s, c, a[0]) else s;
      assert (a + b)[0] == a[0];
      assert (a + b)[1..] == a[1..] + b;
      assert Run(s, c, a + b) == Run(s', c, a[1..] + b);
      RunAppend(s', c, a[1..], b);
    } else {
      assert a + b == b;
    }
  }

  /** k ticks of the break timer. */
  function BreakTicks(k: nat, now: int): seq<Input>
  {
    seq(k, _ => BreakTimerTick(now))
  }

  /** The tick values a break of d seconds emits after k ticks: d-1, d-2, ..., d-k. */
  function TicksFrom(d: int, k: nat): seq<Event>
  {
    seq(k, i => Tick(d - 1 - i))
  }

  /** Fewer ticks than remaining seconds only count down and emit their values. */
  lemma {:induction false} BreakCountsDown(s: TimerState, c: Config, k: nat, now: int)
    requires s.onBreak && s.breakTimer && k < s.breakSecondsRemaining
    ensures Run(s, c, BreakTicks(k, now))
         == s.(breakSecondsRemaining := s.breakSecondsRemaining - k,
               log := s.log + TicksFrom(s.breakSecondsRemaining, k))
    decreases k
  {
    if k > 0 {
      var d := s.breakSecondsRemaining;
      var s' := AfterBreakTick(s, c, now);
      assert s' == s.(breakSecondsRemaining := d - 1, log := s.log + [Tick(d - 1)]);
      assert BreakTicks(k, now)[1..] == BreakTicks(k - 1, now);
      BreakCountsDown(s', c, k - 1, now);
      assert [Tick(d - 1)] + TicksFrom(d - 1, k - 1) == TicksFrom(d, k);
    }
  }

  /**
   * A break of d >= 1 seconds ends after exactly d ticks, having emitted
   * d-1, ..., 1, 0 and then break_ended.
   */
  lemma BreakEndsAfterDuration(s: TimerState, c: Config, now: int)
    requires s.onBreak && s.breakTimer && s.breakSecondsRemaining >= 1
    ensures var d := s.breakSecondsRemaining;
      Run(s, c, BreakTicks(d, now))
        == AfterEndBreak(s.(breakSecondsRemaining := 0, log := s.log + TicksFrom(d, d)), c, now)
  {
    var d := s.breakSecondsRemaining;
    BreakCountsDown(s, c, d - 1, now);
    assert BreakTicks(d, now) == BreakTicks(d - 1, now) + [BreakTimerTick(now)];
    RunAppend(s, c, BreakTicks(d - 1, now), [BreakTimerTick(now)]);
    assert TicksFrom(d, d - 1) + [Tick(0)] == TicksFrom(d, d);
  }

  /**
   * A one-minute interval with a five-second break and a 30-second
   * pre-notification, started at t0: the pre-notification is due 30 s in,
   * the break 60 s in; five ticks later the break ends, having emitted
   * 4, 3, 2, 1, 0, and the next full countdown begins at once.
   */
  lemma OneMinuteScenario(t0: int)
    ensures var c := Config(1, 5, 30, 0);
      var started := AfterStart(Initial, c, t0);
      var ended := Run(started, c, [PreNotifyTimeout, MainTimeout] + BreakTicks(5, t0 + 65000));
      && started.preNotifyTimer == Armed(30000)
      && started.mainTimer == Armed(60000)
      && ended.log == [PreNotification(30), BreakStarting, BreakStarted,
                       Tick(4), Tick(3), Tick(2), Tick(1), Tick(0), BreakEnded]
      && !ended.onBreak && ended.breaksTaken == 1
      && ended.mainTimer == Armed(60000) && ended.nextBreakTime == Some(t0 + 125000)
  {
    var c := Config(1, 5, 30, 0);
    var started := AfterStart(Initial, c, t0);
    RunAppend(started, c, [PreNotifyTimeout, MainTimeout], BreakTicks(5, t0 + 65000));
    var onBreak := Run(started, c, [PreNotifyTimeout, MainTimeout]);
    assert onBreak == AfterMainTimeout(AfterPreNotify(started, c), c);
    BreakEndsAfterDuration(onBreak, c, t0 + 65000);
    assert TicksFrom(5, 5) == [Tick(4), Tick(3), Tick(2), Tick(1), Tick(0)];
  }

  // ---------------------------------------------------------------------------
  // The manager object
  // ---------------------------------------------------------------------------

  class TimerManager {
    var mainTimer: Alarm
    var breakTimerActive: bool
    var preNotifyTimer: Alarm
    var waterTimer: Alarm

    var isRunning: bool
    var isOnBreak: bool
    var breakSecondsRemaining: int

    var breakInterval: int
    var breakDuration: int
    var preNotificationSeconds: int
    var waterInterval: int

    var nextBreakTime: Option<int>
    var sessionStartTime: Option<int>
    var breaksTaken: nat

    /** The signals emitted so far. */
    ghost var events: seq<Event>

    ghost function Snapshot(): TimerState
      reads this
    {
      TimerState(isRunning, isOnBreak, breakSecondsRemaining, breaksTaken, nextBreakTime,
                 sessionStartTime, mainTimer, breakTimerActive, preNotifyTimer, waterTimer, events)
    }

    function Settings(): Config
      reads this
    {
      Config(breakInterval, breakDuration, preNotificationSeconds, waterInterval)
    }

    ghost predicate Valid()
      reads this
    {
      Inv(Snapshot())
    }

    constructor ()
      ensures Valid() && Snapshot() == Initial && Settings() == DefaultConfig
    {
      mainTimer, breakTimerActive, preNotifyTimer, waterTimer := Off, false, Off, Off;
      isRunning, isOnBreak, breakSecondsRemaining := false, false, 0;
      breakInterval, breakDuration, preNotificationSeconds, waterInterval := 20, 20, 30, 0;
      nextBreakTime, sessionStartTime, breaksTaken := None, None, 0;
      events := [];
    }

    /** `configure`: takes effect from the next countdown on. */
    method Configure(interval: int, duration: int, preSeconds: int, water: int)
      requires Valid()
      modifies this
      ensures Valid() && Snapshot() == old(Snapshot())
      ensures Settings() == Config(interval, duration, preSeconds, water)
    {
      breakInterval, breakDuration, preNotificationSeconds, waterInterval := interval, duration, preSeconds, water;
    }

    method Start(now: int)
      requires Valid()
      modifies this
      ensures Valid() && Settings() == old(Settings())
      ensures Snapshot() == AfterStart(old(Snapshot()), Settings(), now)
    {
      if isRunning {
        return;
      }
      isRunning := true;
      sessionStartTime := Some(now);
      StartMainTimer(now);
      if waterInterval > 0 {
        waterTimer := Armed(waterInterval * 60 * 1000);
      }
    }

    method Stop()
      requires Valid()
      modifies this
      ensures Valid() && Settings() == old(Settings())
      ensures Snapshot() == AfterStop(old(Snapshot()))
    {
      isRunning := false;
      mainTimer := Off;
      breakTimerActive := false;
      preNotifyTimer := Off;
      waterTimer := Off;
      nextBreakTime := None;
    }

    method Pause()
      requires Valid()
      modifies this
      ensures Valid() && Settings() == old(Settings())
      ensures Snapshot() == AfterPause(old(Snapshot()))
    {
      if isRunning && !isOnBreak {
        mainTimer := Off;
        preNotifyTimer := Off;
      }
    }

    method Resume(now: int)
      requires Valid()
      modifies this
      ensures Valid() && Settings() == old(Settings())
      ensures Snapshot() == AfterResume(old(Snapshot()), Settings(), now)
    {
      if isRunning && !isOnBreak {
        StartMainTimer(now);
      }
    }

    method SkipBreak(now: int)
      requires Valid()
      modifies this
      ensures Valid() && Settings() == old(Settings())
      ensures Snapshot() == AfterSkipBreak(old(Snapshot()), Settings(), now)
    {
      if isOnBreak {
        EndBreak(now);
      }
    }

    /** `postpone_break`, with the corrected pre-notification guard (see `AfterPostpone`). */
    method PostponeBreak(minutes: int, now: int)
      requires Valid()
      modifies this
      ensures Valid() && Settings() == old(Settings())
      ensures Snapshot() == AfterPostpone(old(Snapshot()), Settings(), minutes, now)
    {
      if isOnBreak {
        EndBreak(now);
      }
      mainTimer := Off;
      preNotifyTimer := Off;
      var delayMs := minutes * 60 * 1000;
      mainTimer := Armed(delayMs);
      nextBreakTime := Some(now + minutes * MsPerMinute);
      if preNotificationSeconds > 0 && minutes * 60 > preNotificationSeconds {
        preNotifyTimer := Armed(delayMs - preNotificationSeconds * 1000);
      }
    }

    /** `get_time_until_break`. */
    function GetTimeUntilBreak(now: int): (r: int)
      reads this
      ensures r == TimeUntilBreak(Snapshot(), now)
    {
      if nextBreakTime.None? then 0
      else if nextBreakTime.value - now > 0 then nextBreakTime.value - now
      else 0
    }

    /** `get_session_duration`. */
    function GetSessionDuration(now: int): (r: int)
      reads this
      ensures r == SessionDuration(Snapshot(), now)
    {
      if sessionStartTime.None? then 0 else now - sessionStartTime.value
    }

    method StartMainTimer(now: int)
      modifies this
      ensures Settings() == old(Settings())
      ensures Snapshot() == AfterStartMainTimer(old(Snapshot()), Settings(), now)
    {
      var intervalMs := breakInterval * 60 * 1000;
      mainTimer := Armed(intervalMs);
      nextBreakTime := Some(now + breakInterval * MsPerMinute);
      if preNotificationSeconds > 0 && breakInterval * 60 > preNotificationSeconds {
        preNotifyTimer := Armed(intervalMs - preNotificationSeconds * 1000);
      }
    }

    /** Called by the main timer, which Qt only fires while it is active. */
    method OnMainTimerTimeout()
      requires Valid() && mainTimer.Armed?
      modifies this
      ensures Valid() && Settings() == old(Settings())
      ensures Snapshot() == AfterMainTimeout(old(Snapshot()), Settings())
    {
      mainTimer := Off;
      StartBreak();
    }

    /** Called by the single-shot pre-notify timer. */
    method OnPreNotify()
      requires Valid() && preNotifyTimer.Armed?
      modifies this
      ensures Valid() && Settings() == old(Settings())
      ensures Snapshot() == AfterPreNotify(old(Snapshot()), Settings())
    {
      preNotifyTimer := Off;
      events := events + [PreNotification(preNotificationSeconds)];
    }

    method StartBreak()
      modifies this
      ensures Settings() == old(Settings())
      ensures Snapshot() == AfterStartBreak(old(Snapshot()), Settings())
    {
      isOnBreak := true;
      breakSecondsRemaining := breakDuration;
      events := events + [BreakStarting, BreakStarted];
      breakTimerActive := true;
    }

    /** Called every second by the break timer while it is active. */
    method OnBreakTimerTick(now: int)
      requires Valid() && breakTimerActive
      modifies this
      ensures Valid() && Settings() == old(Settings())
      ensures Snapshot() == AfterBreakTick(old(Snapshot()), Settings(), now)
    {
      breakSecondsRemaining := breakSecondsRemaining - 1;
      events := events + [Tick(breakSecondsRemaining)];
      if breakSecondsRemaining <= 0 {
        EndBreak(now);
      }
    }

    method EndBreak(now: int)
      modifies this
      ensures Settings() == old(Settings())
      ensures Snapshot() == AfterEndBreak(old(Snapshot()), Settings(), now)
    {
      breakTimerActive := false;
      isOnBreak := false;
      breaksTaken := breaksTaken + 1;
      events := events + [BreakEnded];
      if isRunning {
        StartMainTimer(now);
      }
    }

    /** Called by the repeating water timer. */
    method OnWaterReminder()
      requires Valid() && waterTimer.Armed?
      modifies this
      ensures Valid() && Settings() == old(Settings())
      ensures Snapshot() == AfterWaterReminder(old(Snapshot()))
    {
      events := events + [WaterReminder];
    }

    /** `_take_break_now` of the application, which reaches into the scheduler's timers. */
    method TakeBreakNow()
      requires Valid()
      modifies this
      ensures Valid() && Settings() == old(Settings())
      ensures Snapshot() == AfterTakeBreakNow(old(Snapshot()), Settings())
    {
      mainTimer := Off;
      preNotifyTimer := Off;
      StartBreak();
    }
  }
}
