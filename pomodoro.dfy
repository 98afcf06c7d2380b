/**
 * The Pomodoro cycle machine of src/pomodoro_manager.py.
 *
 * The manager's observable state is captured by the value `Pomodoro`; each
 * operation of the source is a transition function `After...` on it, and the
 * class `PomodoroManager` keeps the same fields and proves each of its
 * methods against the matching transition. The three QTimers have fixed
 * intervals (1 s, 1 s, 30 s), so each one is an "active" flag; every signal
 * emission is appended to a log of `Event`s.
 */
module Pomodoro {
  import opened Common

  /** PomodoroState; `Value` is the string the enum carries (and state_changed emits). */
  datatype PomodoroState = Idle | Working | ShortBreak | LongBreak | WaitingConfirmation
  {
    function Value(): string
    {
      match this
      case Idle => "idle"
      case Working => "working"
      case ShortBreak => "short_break"
      case LongBreak => "long_break"
      case WaitingConfirmation => "waiting"
    }

    /** The states that count seconds down. */
    predicate Timed()
    {
      Working? || ShortBreak? || LongBreak?
    }
  }

  /** Interval of the work and break tick timers, in milliseconds. */
  const TickIntervalMs := 1000
  /** Interval of the reminder timer while waiting for a confirmation, in milliseconds. */
  const ReminderIntervalMs := 30 * 1000

  /** Durations are in minutes, as `configure` receives them. */
  datatype Config = Config(workDuration: int, shortBreakDuration: int,
                           longBreakDuration: int, cyclesBeforeLongBreak: int)

  /** The defaults the constructor installs. */
  const DefaultConfig := Config(25, 5, 15, 4)

  /** The long-break rule takes a remainder modulo `cyclesBeforeLongBreak`. */
  predicate ValidConfig(c: Config)
  {
    c.cyclesBeforeLongBreak > 0
  }

  /**
   * The message carried by confirmation_needed: after a break it names the
   * cycle and the cycle count; after work it names the cycle and whether the
   * break to follow is the long one. The Portuguese wording is not modelled.
   */
  datatype Message =
    | BreakFinished(cycle: nat, cyclesBeforeLongBreak: int)
    | CycleComplete(cycle: nat, longBreakNext: bool)

  /** The signals of PomodoroManager. */
  datatype Event =
    | StateChanged(value: string)
    | Tick(seconds: int)
    | CycleCompleted(cycles: nat)
    | ConfirmationNeeded(message: Message)
    | ReminderNotification
    | PomodoroStarted
    | PomodoroEnded
    | BreakStarted
    | BreakEnded

  /**
   * The manager's state: `waitingForWork` is the hidden direction of
   * WAITING_CONFIRMATION; the three flags say which timers are active.
   */
  datatype Pomodoro = Pomodoro(
    state: PomodoroState,
    cycles: nat,
    seconds: int,
    waitingForWork: bool,
    workTimer: bool,
    breakTimer: bool,
    reminderTimer: bool,
    log: seq<Event>)

  /** The state right after construction. */
  const Initial := Pomodoro(Idle, 0, 0, false, false, false, false, [])

  /**
   * What every reachable state satisfies: exactly the timer of the current
   * state is active, IDLE is all zeros, the direction flag is only set while
   * waiting, and a break or a wait comes after at least one finished cycle.
   */
  predicate Inv(p: Pomodoro)
  {
    && (p.workTimer <==> p.state == Working)
    && (p.breakTimer <==> p.state == ShortBreak || p.state == LongBreak)
    && (p.reminderTimer <==> p.state == WaitingConfirmation)
    && (p.state == Idle ==> p.cycles == 0 && p.seconds == 0)
    && (p.state != WaitingConfirmation ==> !p.waitingForWork)
    && (p.state == ShortBreak || p.state == LongBreak || p.state == WaitingConfirmation ==> p.cycles >= 1)
  }

  // ---------------------------------------------------------------------------
  // The break-kind rule
  // ---------------------------------------------------------------------------

  /** The rule `_start_break` applies: a long break after every n-th finished cycle. */
  predicate IsLongBreak(cycles: nat, n: int)
    requires n > 0
  {
    cycles % n == 0 && cycles > 0
  }

  /** The rule the waiting message applies, which has no `cycles > 0` guard. */
  predicate MessageAnnouncesLongBreak(cycles: nat, n: int)
    requires n > 0
  {
    cycles % n == 0
  }

  /** With four cycles to a long break, cycles 1 to 3 get a short break and cycle 4 a long one. */
  lemma FourCycleRule()
    ensures !IsLongBreak(0, 4) && !IsLongBreak(1, 4) && !IsLongBreak(2, 4) && !IsLongBreak(3, 4)
    ensures IsLongBreak(4, 4) && !IsLongBreak(5, 4) && IsLongBreak(8, 4)
  {
  }

  // ---------------------------------------------------------------------------
  // Transitions
  // ---------------------------------------------------------------------------

  /** `_set_state`: change the state and emit state_changed. */
  function AfterSetState(p: Pomodoro, s: PomodoroState): Pomodoro
  {
    p.(state := s, log := p.log + [StateChanged(s.Value())])
  }

  /** `_start_work`. */
  function AfterStartWork(p: Pomodoro, c: Config): Pomodoro
  {
    AfterSetState(p, Working).(seconds := c.workDuration * 60, waitingForWork := false, workTimer := true)
  }

  /** `_start_break`: long or short by `IsLongBreak`, then break_started and the break timer. */
  function AfterStartBreak(p: Pomodoro, c: Config): Pomodoro
    requires ValidConfig(c)
  {
    var long := IsLongBreak(p.cycles, c.cyclesBeforeLongBreak);
    var q := AfterSetState(p, if long then LongBreak else ShortBreak);
    var q' := q.(seconds := if long then c.longBreakDuration * 60 else c.shortBreakDuration * 60);
    q'.(waitingForWork := false, log := q'.log + [BreakStarted], breakTimer := true)
  }

  /** `start`: only from IDLE; resets the cycle count and begins a work period. */
  function AfterStart(p: Pomodoro, c: Config): Pomodoro
  {
    if p.state != Idle then p
    else AfterStartWork(p.(cycles := 0, waitingForWork := false, log := p.log + [PomodoroStarted]), c)
  }

  /** `stop` (and `end_session`, which calls it). */
  function AfterStop(p: Pomodoro): Pomodoro
  {
    var q := AfterSetState(p.(workTimer := false, breakTimer := false, reminderTimer := false), Idle);
    q.(cycles := 0, seconds := 0, waitingForWork := false, log := q.log + [PomodoroEnded])
  }

  /** `confirm_next_cycle`: only while waiting; work after a break, a break after work. */
  function AfterConfirm(p: Pomodoro, c: Config): Pomodoro
    requires ValidConfig(c)
  {
    if p.state != WaitingConfirmation then p
    else
      var q := p.(reminderTimer := false);
      if q.waitingForWork then AfterStartWork(q, c) else AfterStartBreak(q, c)
  }

  /** The message `_enter_waiting_state` composes. */
  function WaitingMessage(cycles: nat, c: Config, waitingForWork: bool): Message
    requires ValidConfig(c)
  {
    if waitingForWork then BreakFinished(cycles, c.cyclesBeforeLongBreak)
    else CycleComplete(cycles, MessageAnnouncesLongBreak(cycles, c.cyclesBeforeLongBreak))
  }

  /** `_enter_waiting_state`. */
  function AfterEnterWaiting(p: Pomodoro, c: Config, waitingForWork: bool): Pomodoro
    requires ValidConfig(c)
  {
    var q := AfterSetState(p.(waitingForWork := waitingForWork), WaitingConfirmation);
    q.(log := q.log + [ConfirmationNeeded(WaitingMessage(q.cycles, c, waitingForWork))], reminderTimer := true)
  }

  /** `_on_work_timer_tick`. */
  function AfterWorkTick(p: Pomodoro, c: Config): Pomodoro
    requires ValidConfig(c)
  {
    var s := p.seconds - 1;
    var q := p.(seconds := s, log := p.log + [Tick(s)]);
    if s <= 0 then
      var r := q.(workTimer := false, cycles := q.cycles + 1);
      AfterEnterWaiting(r.(log := r.log + [CycleCompleted(r.cycles)]), c, false)
    else q
  }

  /** `_on_break_timer_tick`. */
  function AfterBreakTick(p: Pomodoro, c: Config): Pomodoro
    requires ValidConfig(c)
  {
    var s := p.seconds - 1;
    var q := p.(seconds := s, log := p.log + [Tick(s)]);
    if s <= 0 then AfterEnterWaiting(q.(breakTimer := false, log := q.log + [BreakEnded]), c, true)
    else q
  }

  /** `_on_reminder_timer`. */
  function AfterReminder(p: Pomodoro): Pomodoro
  {
    if p.state == WaitingConfirmation then p.(log := p.log + [ReminderNotification]) else p
  }

  // ---------------------------------------------------------------------------
  // Status text
  // ---------------------------------------------------------------------------

  /** Python's `format(n, "02d")`: zero-padded to two characters, sign first. */
  function Format02(n: int): string
  {
    if n < 0 then "-" + Decimal(-n)
    else if n < 10 then "0" + Decimal(n)
    else Decimal(n)
  }

  lemma Format02RoundTrip(n: nat)
    ensures |Format02(n)| >= 2
    ensures DigitsValue(Format02(n)) == n
  {
    DecimalRoundTrip(n);
    if n < 10 {
      var f := "0" + Decimal(n);
      assert f[..|f| - 1] == "0";
    } else {
      DecimalRoundTrip(n / 10);
    }
  }

  /** The label of a timed state in the status text. */
  function TimedLabel(s: PomodoroState): string
    requires s.Timed()
  {
    match s
    case Working => "Trabalho"
    case ShortBreak => "Pausa curta"
    case LongBreak => "Pausa longa"
  }

  /** `mm:ss` with minutes = s div 60 and seconds = s mod 60. */
  function ClockText(s: int): string
  {
    Format02(s / 60) + ":" + Format02(s % 60)
  }

  /** `get_status_text`: a function of the state and the remaining seconds only. */
  function StatusText(state: PomodoroState, seconds: int): string
  {
    if state.Timed() then TimedLabel(state) + " - " + ClockText(seconds)
    else if state == Idle then "Pomodoro inativo"
    else "Aguardando confirmação"
  }

  /** Reads back the seconds a `mm:ss` text stands for. */
  function ReadClock(t: string): int
    requires |t| >= 3
  {
    DigitsValue(t[..|t| - 3]) * 60 + DigitsValue(t[|t| - 2..])
  }

  /** Two-character fields: numbers below 100 are written with exactly two characters. */
  lemma Format02Short(n: nat)
    requires n < 100
    ensures |Format02(n)| == 2
  {
    if n >= 10 {
      assert Format02(n) == Decimal(n / 10) + [DigitChar(n % 10)];
    }
  }

  /** The `mm:ss` clock reads back as the seconds it was made from, with a two-digit seconds field below 60. */
  lemma ClockTextRule(s: int)
    requires s >= 0
    ensures var c := ClockText(s);
            && |c| >= 5
            && ReadClock(c) == s
            && 0 <= DigitsValue(c[|c| - 2..]) < 60
  {
    var m, sec := Format02(s / 60), Format02(s % 60);
    Format02RoundTrip(s / 60);
    Format02RoundTrip(s % 60);
    Format02Short(s % 60);
    var c := m + ":" + sec;
    assert c[..|c| - 3] == m;
    assert c[|c| - 2..] == sec;
  }

  /**
   * For a timed state the status text is the state's label followed by a
   * clock that reads back as exactly the remaining seconds, whose seconds
   * field is below 60.
   */
  lemma StatusTextShowsRemaining(state: PomodoroState, s: int)
    requires state.Timed() && s >= 0
    ensures var t := StatusText(state, s);
            var prefix := TimedLabel(state) + " - ";
            && |t| >= |prefix| + 5
            && t[..|prefix|] == prefix
            && ReadClock(t[|prefix|..]) == s
            && 0 <= DigitsValue(t[|t| - 2..]) < 60
  {
    var prefix := TimedLabel(state) + " - ";
    var clock := ClockText(s);
    ClockTextRule(s);
    var t := prefix + clock;
    assert t[|prefix|..] == clock;
    assert t[|t| - 2..] == clock[|clock| - 2..];
  }

  /** The untimed states show fixed texts. */
  lemma StatusTextUntimed(seconds: int)
    ensures StatusText(Idle, seconds) == "Pomodoro inativo"
    ensures StatusText(WaitingConfirmation, seconds) == "Aguardando confirmação"
  {
  }

  // ---------------------------------------------------------------------------
  // Properties of single transitions
  // ---------------------------------------------------------------------------

  /** `start` does nothing unless IDLE; from IDLE it starts a fresh work period. */
  lemma StartRule(p: Pomodoro, c: Config)
    requires Inv(p)
    ensures p.state != Idle ==> AfterStart(p, c) == p
    ensures p.state == Idle ==>
      var q := AfterStart(p, c);
      && q.state == Working && q.cycles == 0 && q.seconds == c.workDuration * 60
      && !q.waitingForWork && q.workTimer && !q.breakTimer && !q.reminderTimer
      && q.log == p.log + [PomodoroStarted, StateChanged("working")]
  {
  }

  /** `stop` from any state returns to the initial state, with every timer inactive. */
  lemma StopRule(p: Pomodoro)
    ensures var q := AfterStop(p);
      && q.(log := []) == Initial
      && q.log == p.log + [StateChanged("idle"), PomodoroEnded]
  {
  }

  /**
   * `confirm_next_cycle` is a no-op outside WAITING_CONFIRMATION; inside it
   * deactivates the reminder and starts work or the break `IsLongBreak` picks.
   */
  lemma ConfirmRule(p: Pomodoro, c: Config)
    requires ValidConfig(c)
    ensures p.state != WaitingConfirmation ==> AfterConfirm(p, c) == p
    ensures p.state == WaitingConfirmation ==>
      var q := AfterConfirm(p, c);
      var long := IsLongBreak(p.cycles, c.cyclesBeforeLongBreak);
      && !q.reminderTimer && q.cycles == p.cycles && !q.waitingForWork
      && (p.waitingForWork ==> q.state == Working && q.seconds == c.workDuration * 60 && q.workTimer)
      && (!p.waitingForWork ==>
            && q.breakTimer
            && (if long then q.state == LongBreak && q.seconds == c.longBreakDuration * 60
                else q.state == ShortBreak && q.seconds == c.shortBreakDuration * 60))
  {
  }

  /**
   * A work tick counts one second down; the tick that reaches zero finishes
   * the cycle: one more cycle, WAITING_CONFIRMATION towards a break, reminder on.
   */
  lemma WorkTickRule(p: Pomodoro, c: Config)
    requires ValidConfig(c) && Inv(p) && p.workTimer
    ensures var q := AfterWorkTick(p, c);
      && (p.seconds > 1 ==> q == p.(seconds := p.seconds - 1, log := p.log + [Tick(p.seconds - 1)]))
      && (p.seconds <= 1 ==>
            && q.state == WaitingConfirmation && q.cycles == p.cycles + 1 && !q.waitingForWork
            && q.reminderTimer && !q.workTimer && !q.breakTimer && q.seconds == p.seconds - 1
            && q.log == p.log + [Tick(p.seconds - 1), CycleCompleted(p.cycles + 1), StateChanged("waiting"),
                                 ConfirmationNeeded(CycleComplete(p.cycles + 1,
                                   MessageAnnouncesLongBreak(p.cycles + 1, c.cyclesBeforeLongBreak)))])
  {
  }

  /** A break tick that reaches zero waits for confirmation towards work; the cycle count stays. */
  lemma BreakTickRule(p: Pomodoro, c: Config)
    requires ValidConfig(c) && Inv(p) && p.breakTimer
    ensures var q := AfterBreakTick(p, c);
      && (p.seconds > 1 ==> q == p.(seconds := p.seconds - 1, log := p.log + [Tick(p.seconds - 1)]))
      && (p.seconds <= 1 ==>
            && q.state == WaitingConfirmation && q.cycles == p.cycles && q.waitingForWork
            && q.reminderTimer && !q.workTimer && !q.breakTimer
            && q.log == p.log + [Tick(p.seconds - 1), BreakEnded, StateChanged("waiting"),
                                 ConfirmationNeeded(BreakFinished(p.cycles, c.cyclesBeforeLongBreak))])
  {
  }

  /** The reminder only notifies while waiting for a confirmation. */
  lemma ReminderRule(p: Pomodoro)
    ensures AfterReminder(p).(log := p.log) == p
    ensures AfterReminder(p).log == if p.state == WaitingConfirmation then p.log + [ReminderNotification] else p.log
  {
  }

  /**
   * The break kind the waiting message announces (computed without the
   * `cycles > 0` guard) is the kind `_start_break` then picks, because a work
   * period always ends with at least one finished cycle.
   */
  lemma WaitingMessageMatchesBreak(p: Pomodoro, c: Config)
    requires ValidConfig(c) && Inv(p) && p.workTimer && p.seconds <= 1
    ensures var q := AfterWorkTick(p, c);
      var long := MessageAnnouncesLongBreak(q.cycles, c.cyclesBeforeLongBreak);
      && q.log[|q.log| - 1] == ConfirmationNeeded(CycleComplete(q.cycles, long))
      && AfterConfirm(q, c).state == (if long then LongBreak else ShortBreak)
  {
    var q := AfterWorkTick(p, c);
    assert q.cycles >= 1;
  }

  // ---------------------------------------------------------------------------
  // Runs of events
  // ---------------------------------------------------------------------------

  /** What can happen to the manager: a user call or the timeout of a timer. */
  datatype Input =
    | UserStart | UserStop | UserConfirm | UserEndSession
    | WorkTimeout | BreakTimeout | ReminderTimeout

  /** Qt only delivers the timeout of an active timer; calls are always delivered. */
  predicate Delivered(p: Pomodoro, i: Input)
  {
    match i
    case WorkTimeout => p.workTimer
    case BreakTimeout => p.breakTimer
    case ReminderTimeout => p.reminderTimer
    case _ => true
  }

  function Step(p: Pomodoro, c: Config, i: Input): Pomodoro
    requires ValidConfig(c)
  {
    match i
    case UserStart => AfterStart(p, c)
    case UserStop => AfterStop(p)
    case UserConfirm => AfterConfirm(p, c)
    case UserEndSession => AfterStop(p)
    case WorkTimeout => AfterWorkTick(p, c)
    case BreakTimeout => AfterBreakTick(p, c)
    case ReminderTimeout => AfterReminder(p)
  }

  /** The state after a sequence of inputs; inputs Qt would not deliver are skipped. */
  function Run(p: Pomodoro, c: Config, inputs: seq<Input>): Pomodoro
    requires ValidConfig(c)
    decreases |inputs|
  {
    if inputs == [] then p
    else Run(if Delivered(p, inputs[0]) then Step(p, c, inputs[0]) else p, c, inputs[1..])
  }

  lemma StepPreservesInv(p: Pomodoro, c: Config, i: Input)
    requires ValidConfig(c) && Inv(p) && Delivered(p, i)
    ensures Inv(Step(p, c, i))
  {
  }

  /** Every state reachable from the initial one satisfies `Inv`. */
  lemma {:induction false} RunPreservesInv(p: Pomodoro, c: Config, inputs: seq<Input>)
    requires ValidConfig(c) && Inv(p)
    ensures Inv(Run(p, c, inputs))
    decreases |inputs|
  {
    if inputs != [] {
      if Delivered(p, inputs[0]) {
        StepPreservesInv(p, c, inputs[0]);
      }
      RunPreservesInv(if Delivered(p, inputs[0]) then Step(p, c, inputs[0]) else p, c, inputs[1..]);
    }
  }

  lemma {:induction false} RunAppend(p: Pomodoro, c: Config, a: seq<Input>, b: seq<Input>)
    requires ValidConfig(c)
    ensures Run(p, c, a + b) == Run(Run(p, c, a), c, b)
    decreases |a|
  {
    if a != [] {
      var p' := if Delivered(p, a[0]) then Step(p, c, a[0]) else p;
      assert (a + b)[0] == a[0];
      assert (a + b)[1..] == a[1..] + b;
      assert Run(p, c, a + b) == Run(p', c, a[1..] + b);
      assert Run(p, c, a) == Run(p', c, a[1..]);
      RunAppend(p', c, a[1..], b);
    } else {
      assert a + b == b;
    }
  }

  /** k work-timer timeouts. */
  function WorkTimeouts(k: nat): seq<Input>
  {
    seq(k, _ => WorkTimeout)
  }

  /** While fewer ticks than remaining seconds arrive, the manager keeps working. */
  lemma {:induction false} WorkCountsDown(p: Pomodoro, c: Config, k: nat)
    requires ValidConfig(c) && Inv(p) && p.state == Working && k < p.seconds
    ensures var q := Run(p, c, WorkTimeouts(k));
      q.state == Working && q.seconds == p.seconds - k && q.cycles == p.cycles && Inv(q)
    decreases k
  {
    if k > 0 {
      var p' := AfterWorkTick(p, c);
      assert WorkTimeouts(k)[1..] == WorkTimeouts(k - 1);
      WorkCountsDown(p', c, k - 1);
    }
  }

  /** A work period of s >= 1 seconds ends after exactly s ticks, with one more finished cycle. */
  lemma WorkPeriodEnds(p: Pomodoro, c: Config)
    requires ValidConfig(c) && Inv(p) && p.state == Working && p.seconds >= 1
    ensures var q := Run(p, c, WorkTimeouts(p.seconds));
      q.state == WaitingConfirmation && q.cycles == p.cycles + 1 && !q.waitingForWork && Inv(q)
  {
    var s := p.seconds;
    WorkCountsDown(p, c, s - 1);
    assert WorkTimeouts(s) == WorkTimeouts(s - 1) + [WorkTimeout];
    RunAppend(p, c, WorkTimeouts(s - 1), [WorkTimeout]);
    var q := Run(p, c, WorkTimeouts(s - 1));
    assert Run(q, c, [WorkTimeout]) == AfterWorkTick(q, c);
  }

  /**
   * Starting from IDLE and letting `workDuration * 60` ticks pass reaches
   * WAITING_CONFIRMATION with one finished cycle; confirming then starts a
   * short break unless every cycle is followed by a long one.
   */
  lemma FirstCycleScenario(c: Config)
    requires ValidConfig(c) && c.workDuration >= 1
    ensures var started := AfterStart(Initial, c);
      var waiting := Run(started, c, WorkTimeouts(c.workDuration * 60));
      var next := AfterConfirm(waiting, c);
      && waiting.state == WaitingConfirmation && waiting.cycles == 1
      && next.state == (if c.cyclesBeforeLongBreak == 1 then LongBreak else ShortBreak)
      && next.seconds == (if c.cyclesBeforeLongBreak == 1 then c.longBreakDuration else c.shortBreakDuration) * 60
  {
    var started := AfterStart(Initial, c);
    WorkPeriodEnds(started, c);
  }

  // ---------------------------------------------------------------------------
  // The manager object
  // ---------------------------------------------------------------------------

  class PomodoroManager {
    var state: PomodoroState
    var cyclesCompleted: nat
    var secondsRemaining: int
    var waitingForWork: bool
    var workTimerActive: bool
    var breakTimerActive: bool
    var reminderTimerActive: bool

    var workDuration: int
    var shortBreakDuration: int
    var longBreakDuration: int
    var cyclesBeforeLongBreak: int

    /** The signals emitted so far. */
    ghost var events: seq<Event>

    ghost function Snapshot(): Pomodoro
      reads this
    {
      Pomodoro(state, cyclesCompleted, secondsRemaining, waitingForWork,
               workTimerActive, breakTimerActive, reminderTimerActive, events)
    }

    function Settings(): Config
      reads this
    {
      Config(workDuration, shortBreakDuration, longBreakDuration, cyclesBeforeLongBreak)
    }

    ghost predicate Valid()
      reads this
    {
      ValidConfig(Settings()) && Inv(Snapshot())
    }

    constructor ()
      ensures Valid() && Snapshot() == Initial && Settings() == DefaultConfig
    {
      state, cyclesCompleted, secondsRemaining, waitingForWork := Idle, 0, 0, false;
      workTimerActive, breakTimerActive, reminderTimerActive := false, false, false;
      workDuration, shortBreakDuration, longBreakDuration, cyclesBeforeLongBreak := 25, 5, 15, 4;
      events := [];
    }

    /** `configure`: new durations take effect from the next period on. */
    method Configure(work: int, shortBreak: int, longBreak: int, cycles: int)
      requires Valid() && cycles > 0
      modifies this
      ensures Valid() && Snapshot() == old(Snapshot())
      ensures Settings() == Config(work, shortBreak, longBreak, cycles)
    {
      workDuration, shortBreakDuration, longBreakDuration, cyclesBeforeLongBreak := work, shortBreak, longBreak, cycles;
    }

    method Start()
      requires Valid()
      modifies this
      ensures Valid() && Settings() == old(Settings())
      ensures Snapshot() == AfterStart(old(Snapshot()), Settings())
    {
      if state != Idle {
        return;
      }
      cyclesCompleted := 0;
      waitingForWork := false;
      events := events + [PomodoroStarted];
      StartWork();
    }

    method Stop()
      requires Valid()
      modifies this
      ensures Valid() && Settings() == old(Settings())
      ensures Snapshot() == AfterStop(old(Snapshot()))
    {
      workTimerActive := false;
      breakTimerActive := false;
      reminderTimerActive := false;
      SetState(Idle);
      cyclesCompleted := 0;
      secondsRemaining := 0;
      waitingForWork := false;
      events := events + [PomodoroEnded];
    }

    method ConfirmNextCycle()
      requires Valid()
      modifies this
      ensures Valid() && Settings() == old(Settings())
      ensures Snapshot() == AfterConfirm(old(Snapshot()), Settings())
    {
      if state != WaitingConfirmation {
        return;
      }
      reminderTimerActive := false;
      if waitingForWork {
        StartWork();
      } else {
        StartBreak();
      }
    }

    /** `end_session` is `stop`. */
    method EndSession()
      requires Valid()
      modifies this
      ensures Valid() && Settings() == old(Settings())
      ensures Snapshot() == AfterStop(old(Snapshot()))
    {
      Stop();
    }

    method SetState(s: PomodoroState)
      modifies this
      ensures Settings() == old(Settings())
      ensures Snapshot() == AfterSetState(old(Snapshot()), s)
    {
      state := s;
      events := events + [StateChanged(s.Value())];
    }

    method StartWork()
      modifies this
      ensures Settings() == old(Settings())
      ensures Snapshot() == AfterStartWork(old(Snapshot()), Settings())
    {
      SetState(Working);
      secondsRemaining := workDuration * 60;
      waitingForWork := false;
      workTimerActive := true;
    }

    method StartBreak()
      requires ValidConfig(Settings())
      modifies this
      ensures Settings() == old(Settings())
      ensures Snapshot() == AfterStartBreak(old(Snapshot()), Settings())
    {
      if cyclesCompleted % cyclesBeforeLongBreak == 0 && cyclesCompleted > 0 {
        SetState(LongBreak);
        secondsRemaining := longBreakDuration * 60;
      } else {
        SetState(ShortBreak);
        secondsRemaining := shortBreakDuration * 60;
      }
      waitingForWork := false;
      events := events + [BreakStarted];
      breakTimerActive := true;
    }

    /** Called by the work timer, which Qt only fires while it is active. */
    method OnWorkTimerTick()
      requires Valid() && workTimerActive
      modifies this
      ensures Valid() && Settings() == old(Settings())
      ensures Snapshot() == AfterWorkTick(old(Snapshot()), Settings())
    {
      secondsRemaining := secondsRemaining - 1;
      events := events + [Tick(secondsRemaining)];
      if secondsRemaining <= 0 {
        workTimerActive := false;
        cyclesCompleted := cyclesCompleted + 1;
        events := events + [CycleCompleted(cyclesCompleted)];
        EnterWaitingState(false);
      }
    }

    /** Called by the break timer, which Qt only fires while it is active. */
    method OnBreakTimerTick()
      requires Valid() && breakTimerActive
      modifies this
      ensures Valid() && Settings() == old(Settings())
      ensures Snapshot() == AfterBreakTick(old(Snapshot()), Settings())
    {
      secondsRemaining := secondsRemaining - 1;
      events := events + [Tick(secondsRemaining)];
      if secondsRemaining <= 0 {
        breakTimerActive := false;
        events := events + [BreakEnded];
        EnterWaitingState(true);
      }
    }

    method EnterWaitingState(forWork: bool)
      requires ValidConfig(Settings())
      modifies this
      ensures Settings() == old(Settings())
      ensures Snapshot() == AfterEnterWaiting(old(Snapshot()), Settings(), forWork)
    {
      waitingForWork := forWork;
      SetState(WaitingConfirmation);
      var msg;
      if forWork {
        msg := BreakFinished(cyclesCompleted, cyclesBeforeLongBreak);
      } else {
        var long := cyclesCompleted % cyclesBeforeLongBreak == 0;
        msg := CycleComplete(cyclesCompleted, long);
      }
      events := events + [ConfirmationNeeded(msg)];
      reminderTimerActive := true;
    }

    /** Called every 30 seconds by the reminder timer. */
    method OnReminderTimer()
      requires Valid() && reminderTimerActive
      modifies this
      ensures Valid() && Settings() == old(Settings())
      ensures Snapshot() == AfterReminder(old(Snapshot()))
    {
      if state == WaitingConfirmation {
        events := events + [ReminderNotification];
      }
    }
  }
}
