/** How far apart an application's checkpoints are (api/boinc_api.cpp): the timer thread counts
    time_until_checkpoint down once a second, and the worker thread sets it again after each checkpoint.
    Neither takes a lock, so every read and every write of the shared variables is a step of its own. */
module CheckpointTimer {
  const DEFAULT_CHECKPOINT_PERIOD := 300

  /** Where the timer thread is in its one-second action. */
  datatype Timer = Away | Reading | Writing(read: int) | Testing | Setting

  /** Where the worker is: in boinc_set_min_checkpoint_period(), or in boinc_checkpoint_completed() with
      the flag still to be cleared. */
  datatype Worker = Free | Comparing(x: int) | Raising(x: int) | Clearing

  /** The shared variables and both threads. saving: an answer was yes, and that checkpoint is not
      completed yet. */
  datatype State = State(checkpointPeriod: real, appMin: int, left: int, ready: bool, saving: bool,
                         timer: Timer, worker: Worker)

  /** Step is the timer thread's next access. The others belong to the worker: Ask and StoreTime begin
      boinc_time_to_checkpoint() and boinc_checkpoint_completed(), SetMin begins
      boinc_set_min_checkpoint_period(), and Reread parses the init file again. */
  datatype Event = Step | Ask | StoreTime | ClearReady | SetMin(x: int) | Compare | Raise | Reread(period: real)

  /** A cast of a double to int drops the fraction. */
  function Truncate(r: real): int {
    if r >= 0.0 then r.Floor else -(-r).Floor
  }

  function Max(a: int, b: int): int {
    if a >= b then a else b
  }

  function MinPeriod(s: State): int {
    var longer := Max(Truncate(s.checkpointPeriod), s.appMin);
    if longer == 0 then DEFAULT_CHECKPOINT_PERIOD else longer
  }

  /** The period is the longer one of the integer part of the client's and the application's own, and 300
      when the longer one is 0; so it is never 0. */
  lemma {:induction false} PeriodIs(s: State, p: int)
    requires if s.checkpointPeriod >= 0.0 then p as real <= s.checkpointPeriod < p as real + 1.0
      else p as real - 1.0 < s.checkpointPeriod <= p as real
    ensures p == Truncate(s.checkpointPeriod)
    ensures MinPeriod(s) >= p && MinPeriod(s) >= s.appMin && MinPeriod(s) != 0
    ensures MinPeriod(s) == p || MinPeriod(s) == s.appMin ||
      (MinPeriod(s) == 300 && p <= 0 && s.appMin <= 0 && (p == 0 || s.appMin == 0))
  {
    if s.checkpointPeriod < 0.0 { assert (-s.checkpointPeriod).Floor == -p; }
  }

  function TimerNext(s: State): State {
    match s.timer
    case Away => if s.ready then s else s.(timer := Reading)
    case Reading => s.(timer := Writing(s.left))
    case Writing(read) => s.(left := read - 1, timer := Testing)
    case Testing => s.(timer := if s.left <= 0 then Setting else Away)
    case Setting => s.(ready := true, timer := Away)
  }

  /** The calls come one after the other, and a checkpoint is completed only after a yes. */
  predicate Can(s: State, e: Event) {
    match e
    case Step => true
    case Ask => s.worker.Free?
    case StoreTime => s.worker.Free? && s.saving
    case ClearReady => s.worker.Clearing?
    case SetMin(_) => s.worker.Free?
    case Compare => s.worker.Comparing?
    case Raise => s.worker.Raising?
    case Reread(_) => s.worker.Free?
  }

  function Next(s: State, e: Event): State
    requires Can(s, e)
  {
    match e
    case Step => TimerNext(s)
    case Ask => s.(saving := s.saving || s.ready)
    case StoreTime => s.(left := MinPeriod(s), worker := Clearing)
    case ClearReady => s.(ready := false, saving := false, worker := Free)
    case SetMin(x) => s.(appMin := x, worker := Comparing(x))
    case Compare => s.(worker := if s.worker.x > s.left then Raising(s.worker.x) else Free)
    case Raise => s.(left := s.worker.x, worker := Free)
    case Reread(period) => s.(checkpointPeriod := period)
  }

  predicate Legal(s: State, run: seq<Event>)
    decreases |run|
  {
    run == [] || (Can(s, run[0]) && Legal(Next(s, run[0]), run[1..]))
  }

  function After(s: State, run: seq<Event>): State
    requires Legal(s, run)
    decreases |run|
  {
    if run == [] then s else After(Next(s, run[0]), run[1..])
  }

  /** The periods that a call or the init file sets stay in force, whatever happens, until the next one. */
  lemma {:induction false} PeriodsStay(s: State, run: seq<Event>)
    requires Legal(s, run)
    ensures (forall x :: SetMin(x) !in run) ==> After(s, run).appMin == s.appMin
    ensures (forall r :: Reread(r) !in run) ==> After(s, run).checkpointPeriod == s.checkpointPeriod
    decreases |run|
  {
    if run != [] {
      assert run[0] in run;
      PeriodsStay(Next(s, run[0]), run[1..]);
    }
  }

  /** So each lower bound that was set last holds for the period after every later step. */
  lemma {:induction false} NewestPeriodCounts(s: State, x: int, period: real, first: seq<Event>, rest: seq<Event>)
    requires Can(s, SetMin(x)) && Legal(Next(s, SetMin(x)), first)
    requires Can(After(Next(s, SetMin(x)), first), Reread(period))
    requires Legal(Next(After(Next(s, SetMin(x)), first), Reread(period)), rest)
    requires forall y :: SetMin(y) !in first && SetMin(y) !in rest
    requires forall r :: Reread(r) !in rest
    ensures var end := After(Next(After(Next(s, SetMin(x)), first), Reread(period)), rest);
      MinPeriod(end) >= x && MinPeriod(end) as real > period - 1.0
  {
    PeriodsStay(Next(s, SetMin(x)), first);
    PeriodsStay(Next(After(Next(s, SetMin(x)), first), Reread(period)), rest);
  }

  /** A step that counts one second down. */
  predicate Ticks(s: State, e: Event) {
    e.Step? && s.timer.Writing?
  }

  function Tick(s: State, e: Event): nat {
    if Ticks(s, e) then 1 else 0
  }

  /** How many seconds were counted down during a run. */
  function Counted(s: State, run: seq<Event>): nat
    requires Legal(s, run)
    decreases |run|
  {
    if run == [] then 0 else Tick(s, run[0]) + Counted(Next(s, run[0]), run[1..])
  }

  predicate Completes(run: seq<Event>) {
    StoreTime in run
  }

  predicate Raises(run: seq<Event>) {
    Raise in run
  }

  /** boinc_init_options_general(): before the timer thread starts. */
  predicate Init(s: State) {
    s.left == MinPeriod(s) && !s.ready && !s.saving && s.timer.Away? && s.worker.Free?
  }

  /** The timer is inside its action only while the flag is clear, it writes back no more than is there, and
      the worker raises the count only above what is there. While the worker saves, the flag stays set. */
  predicate Inv(s: State) {
    && (!s.timer.Away? ==> !s.ready)
    && (s.saving ==> s.ready)
    && (s.worker.Clearing? ==> s.saving)
    && (s.timer.Writing? ==> s.timer.read <= s.left)
    && (s.worker.Raising? ==> s.worker.x > s.left)
  }

  lemma {:induction false} NextKeeps(s: State, e: Event)
    requires Inv(s) && Can(s, e)
    ensures Inv(Next(s, e))
  {
  }

  /** The seconds still to be counted down before the answer turns to yes, if the worker leaves the count
      alone. */
  function Ahead(s: State): nat {
    if s.worker.Clearing? then Max(s.left, 1)
    else if s.ready then 0
    else
      match s.timer
      case Away => Max(s.left, 1)
      case Reading => Max(s.left, 1)
      case Writing(read) => Max(read, 1)
      case Testing => Max(s.left, 0)
      case Setting => 0
  }

  /** One step: the worker never brings the yes nearer, and a second brings it nearer by at most one; by
      exactly one, and by nothing else, as long as the count is not raised. */
  lemma {:induction false} AheadFalls(s: State, e: Event)
    requires Inv(s) && Can(s, e) && e != StoreTime
    ensures Ahead(Next(s, e)) + Tick(s, e) >= Ahead(s)
    ensures e != Raise ==> Ahead(Next(s, e)) + Tick(s, e) == Ahead(s)
  {
  }

  lemma {:induction false} RunKeeps(s: State, run: seq<Event>)
    requires Inv(s) && Legal(s, run)
    ensures Inv(After(s, run))
    decreases |run|
  {
    if run != [] {
      NextKeeps(s, run[0]);
      RunKeeps(Next(s, run[0]), run[1..]);
    }
  }

  /** A whole run, between two completions. */
  lemma {:induction false} AheadOverRun(s: State, run: seq<Event>)
    requires Inv(s) && Legal(s, run) && !Completes(run)
    ensures Ahead(After(s, run)) + Counted(s, run) >= Ahead(s)
    ensures !Raises(run) ==> Ahead(After(s, run)) + Counted(s, run) == Ahead(s)
    decreases |run|
  {
    if run != [] {
      NextKeeps(s, run[0]);
      AheadFalls(s, run[0]);
      AheadOverRun(Next(s, run[0]), run[1..]);
    }
  }

  /** Completing a checkpoint puts the next yes a full period ahead. */
  lemma {:induction false} CompletionSets(s: State)
    requires Inv(s) && Can(s, StoreTime)
    ensures Ahead(Next(s, StoreTime)) == Max(MinPeriod(s), 1)
  {
  }

  lemma {:induction false} AfterConcat(s: State, a: seq<Event>, b: seq<Event>)
    requires Legal(s, a + b)
    ensures Legal(s, a) && Legal(After(s, a), b) && After(After(s, a), b) == After(s, a + b)
    decreases |a|
  {
    if a == [] {
      assert a + b == b;
    } else {
      assert (a + b)[0] == a[0] && (a + b)[1..] == a[1..] + b;
      AfterConcat(Next(s, a[0]), a[1..], b);
    }
  }

  /** Does boinc_time_to_checkpoint() answer yes here? */
  predicate SaysYes(s: State) {
    s.worker.Free? && s.ready
  }

  /** Checkpoint spacing. On every run from the start, however the two threads interleave, a yes that
      follows a completed checkpoint comes at least min_checkpoint_period() seconds after it, that period
      being the one in force at the completion; and in exactly that many seconds (one, for a period below
      one) when the application does not raise the count in between. */
  lemma {:induction false} Spacing(start: State, before: seq<Event>, between: seq<Event>)
    requires Init(start) && Legal(start, before + [StoreTime] + between) && !Completes(between)
    ensures Legal(start, before) && Can(After(start, before), StoreTime)
    ensures var done := Next(After(start, before), StoreTime);
      && Legal(done, between)
      && (SaysYes(After(done, between)) ==> Counted(done, between) >= Max(MinPeriod(After(start, before)), 1))
      && (SaysYes(After(done, between)) && !Raises(between) ==>
        Counted(done, between) == Max(MinPeriod(After(start, before)), 1))
  {
    AfterConcat(start, before + [StoreTime], between);
    AfterConcat(start, before, [StoreTime]);
    RunKeeps(start, before);
    var at := After(start, before);
    CompletionSets(at);
    NextKeeps(at, StoreTime);
    assert After(at, [StoreTime]) == Next(at, StoreTime);
    AheadOverRun(Next(at, StoreTime), between);
  }

  /** The same for the first yes after the start. */
  lemma {:induction false} FirstSpacing(start: State, run: seq<Event>)
    requires Init(start) && Legal(start, run) && !Completes(run) && SaysYes(After(start, run))
    ensures Counted(start, run) >= Max(MinPeriod(start), 1)
    ensures !Raises(run) ==> Counted(start, run) == Max(MinPeriod(start), 1)
  {
    AheadOverRun(start, run);
  }

  /** Between two of its actions the timer leaves the flag set exactly when nothing is left to count: no
      yes is late. */
  lemma {:induction false} YesIsOnTime(start: State, run: seq<Event>)
    requires Init(start) && Legal(start, run)
    ensures var s := After(start, run); s.worker.Free? && s.timer.Away? ==> (s.ready <==> Ahead(s) == 0)
  {
    RunKeeps(start, run);
  }

  /* ---------- raising the period while the timer counts ---------- */

  /** The last step of a call of boinc_set_min_checkpoint_period(): it raises the count, or finds it high
      enough. */
  predicate EndsCall(s: State, e: Event) {
    Can(s, e) && (e == Raise || (e == Compare && s.worker.x <= s.left))
  }

  /** The count does not decide any more: the flag is set already, or the timer thread has read the count
      that it will write back, or has decided to set the flag. */
  predicate Undone(s: State) {
    s.ready || s.timer.Writing? || s.timer.Setting?
  }

  /** After the call's last step the next yes is at least x seconds ahead if and only if the timer heeds
      the count, or that was so anyway. */
  lemma {:induction false} CallCountsIff(s: State, e: Event)
    requires Inv(s) && EndsCall(s, e)
    ensures Ahead(Next(s, e)) >= s.worker.x <==> !Undone(s) || Ahead(s) >= s.worker.x
    ensures Undone(s) ==> Ahead(Next(s, e)) == Ahead(s)
  {
  }

  /** Every run without a completion that ends with a yes counts down at least x seconds. */
  ghost predicate NoYesBefore(s: State, x: int) {
    forall run :: Legal(s, run) && !Completes(run) && SaysYes(After(s, run)) ==> Counted(s, run) >= x
  }

  /** How many steps the timer thread takes at most until the next count. */
  function Rest(s: State): nat {
    if s.ready then 0
    else
      match s.timer
      case Testing => 5 case Away => 4 case Reading => 3 case Writing(_) => 2 case Setting => 1
  }

  lemma {:induction false} StepFirst(s: State, e: Event, rest: seq<Event>)
    requires Can(s, e) && Legal(Next(s, e), rest)
    ensures Legal(s, [e] + rest)
    ensures After(s, [e] + rest) == After(Next(s, e), rest)
    ensures Counted(s, [e] + rest) == Tick(s, e) + Counted(Next(s, e), rest)
    ensures Completes([e] + rest) <==> e == StoreTime || Completes(rest)
  {
    assert ([e] + rest)[1..] == rest;
  }

  /** The timer thread alone brings the yes, after as many seconds as are ahead. */
  lemma {:induction false} TimerReaches(s: State) returns (run: seq<Event>)
    requires Inv(s) && s.worker.Free?
    ensures Legal(s, run) && !Completes(run) && SaysYes(After(s, run)) && Counted(s, run) == Ahead(s)
    decreases Ahead(s), Rest(s)
  {
    if s.ready {
      run := [];
    } else {
      var next := Next(s, Step);
      NextKeeps(s, Step);
      AheadFalls(s, Step);
      var rest := TimerReaches(next);
      StepFirst(s, Step, rest);
      run := [Step] + rest;
    }
  }

  /** What is ahead is what every run has to wait for, and no more. */
  lemma {:induction false} AheadIsExact(s: State, x: int)
    requires Inv(s) && s.worker.Free?
    ensures NoYesBefore(s, x) <==> Ahead(s) >= x
  {
    forall run | Legal(s, run) && !Completes(run) && SaysYes(After(s, run)) ensures Counted(s, run) >= Ahead(s) {
      AheadOverRun(s, run);
    }
    var run := TimerReaches(s);
  }

  /** When boinc_set_min_checkpoint_period(x) keeps its promise, on every run from the start up to the last
      step of the call: no continuation has a yes before x seconds have passed if and only if the timer
      thread heeds the count at that step, or was that far from a yes before. */
  lemma {:induction false} RaiseCountsIff(start: State, before: seq<Event>, e: Event)
    requires Init(start) && Legal(start, before) && EndsCall(After(start, before), e)
    ensures var s := After(start, before);
      NoYesBefore(Next(s, e), s.worker.x) <==> !Undone(s) || Ahead(s) >= s.worker.x
  {
    var s := After(start, before);
    RunKeeps(start, before);
    NextKeeps(s, e);
    CallCountsIff(s, e);
    AheadIsExact(Next(s, e), s.worker.x);
  }

  lemma {:induction false} StepLast(s: State, run: seq<Event>, e: Event)
    requires Legal(s, run) && Can(After(s, run), e)
    ensures Legal(s, run + [e]) && After(s, run + [e]) == Next(After(s, run), e)
    decreases |run|
  {
    if run == [] {
      assert run + [e] == [e] && [e][1..] == [];
    } else {
      StepLast(Next(s, run[0]), run[1..], e);
      assert (run + [e])[1..] == run[1..] + [e];
    }
  }

  lemma {:induction false} Extend(start: State, run0: seq<Event>, s0: State, e: Event) returns (run: seq<Event>,
                                                                                                s: State)
    requires Legal(start, run0) && s0 == After(start, run0) && Can(s0, e)
    ensures Legal(start, run) && s == After(start, run) && s == Next(s0, e)
  {
    StepLast(start, run0, e);
    run, s := run0 + [e], Next(s0, e);
  }

  /** A call that is lost: with a period of one second the timer reads the count, the application asks for
      600 seconds, and the timer is about to write back one less than what it read. */
  lemma {:induction false} SomeRaiseIsUndone(start: State) returns (run: seq<Event>, s: State)
    requires Init(start) && MinPeriod(start) == 1
    ensures Legal(start, run) && s == After(start, run) && EndsCall(s, Raise) && s.worker.x == 600
    ensures MinPeriod(s) == 600 && !NoYesBefore(Next(s, Raise), 2)
    ensures Next(s, Raise) == start.(appMin := 600, left := 600, timer := Writing(1))
  {
    run, s := Extend(start, [], start, Step);
    run, s := Extend(start, run, s, Step);
    run, s := Extend(start, run, s, SetMin(600));
    run, s := Extend(start, run, s, Compare);
    assert s.worker == Raising(600) && s.timer == Writing(1);
    RunKeeps(start, run);
    NextKeeps(s, Raise);
    AheadIsExact(Next(s, Raise), 2);
  }

  /** Another one: a second call asks for 300 seconds, and finds the 600 that the timer is about to
      overwrite. */
  lemma {:induction false} SomeCompareIsUndone(start: State) returns (run: seq<Event>, s: State)
    requires Init(start) && MinPeriod(start) == 1
    ensures Legal(start, run) && s == After(start, run) && EndsCall(s, Compare) && s.worker.x == 300
    ensures MinPeriod(s) == 300 && !NoYesBefore(Next(s, Compare), 2)
  {
    run, s := SomeRaiseIsUndone(start);
    run, s := Extend(start, run, s, Raise);
    run, s := Extend(start, run, s, SetMin(300));
    RunKeeps(start, run);
    NextKeeps(s, Compare);
    AheadIsExact(Next(s, Compare), 2);
  }

  /** One whole action of the timer thread, step by step, with the worker elsewhere. */
  function Action(s: State): State {
    if s.ready then TimerNext(s)
    else
      var tested := TimerNext(TimerNext(TimerNext(TimerNext(s))));
      if tested.timer.Setting? then TimerNext(tested) else tested
  }

  /** A whole call of boinc_set_min_checkpoint_period(), with the timer thread elsewhere. */
  function SetPeriod(s: State, x: int): State
    requires s.worker.Free?
  {
    var compared := Next(Next(s, SetMin(x)), Compare);
    if compared.worker.Raising? then Next(compared, Raise) else compared
  }

  /** The variables of the runtime library. */
  class Runtime {
    var checkpointPeriod: real
    var appMinCheckpointPeriod: int
    var timeUntilCheckpoint: int
    var readyToCheckpoint: bool
    var inCriticalSection: int
    var wuCpuTime: real
    var lastWuCpuTime: real
    var lastCheckpointCpuTime: real

    /** The variables as a state, with both threads outside of their calls. */
    ghost function Value(saving: bool): State
      reads this
    {
      State(checkpointPeriod, appMinCheckpointPeriod, timeUntilCheckpoint, readyToCheckpoint, saving, Away, Free)
    }

    method MinCheckpointPeriod() returns (x: int)
      ensures x == MinPeriod(Value(false)) && x != 0
      ensures x >= appMinCheckpointPeriod && x as real > checkpointPeriod - 1.0
      ensures x == appMinCheckpointPeriod || x == 300 ||
        (if checkpointPeriod >= 0.0 then x as real <= checkpointPeriod else x as real - 1.0 < checkpointPeriod)
    {
      x := Truncate(checkpointPeriod);
      if appMinCheckpointPeriod > x {
        x := appMinCheckpointPeriod;
      }
      if x == 0 { x := DEFAULT_CHECKPOINT_PERIOD; }
    }

    method SetMinCheckpointPeriod(x: int, ghost saving: bool)
      modifies `appMinCheckpointPeriod, `timeUntilCheckpoint
      ensures Value(saving) == SetPeriod(old(Value(saving)), x)
      ensures !readyToCheckpoint ==> Ahead(Value(saving)) >= x
    {
      appMinCheckpointPeriod := x;
      if x > timeUntilCheckpoint {
        timeUntilCheckpoint := x;
      }
    }

    /** timer_handler(), at a one-second boundary. */
    method SecondPasses(ghost saving: bool)
      modifies `timeUntilCheckpoint, `readyToCheckpoint
      ensures Value(saving) == Action(old(Value(saving)))
      ensures Ahead(Value(saving)) == Max(old(Ahead(Value(saving))) - 1, 0)
    {
      if !readyToCheckpoint {
        timeUntilCheckpoint := timeUntilCheckpoint - 1;
        if timeUntilCheckpoint <= 0 {
          readyToCheckpoint := true;
        }
      }
    }

    method TimeToCheckpoint(ghost saving: bool) returns (yes: bool)
      modifies `inCriticalSection
      ensures yes == SaysYes(Value(saving))
      ensures Value(saving || yes) == Next(old(Value(saving)), Ask)
      ensures inCriticalSection == old(inCriticalSection) + if yes then 1 else 0
    {
      yes := readyToCheckpoint;
      if yes { inCriticalSection := inCriticalSection + 1; }
    }

    /** `cpu` is the CPU time of the worker thread since the process started. */
    method CheckpointCompleted(cpu: real)
      modifies `timeUntilCheckpoint, `readyToCheckpoint, `inCriticalSection, `lastWuCpuTime, `lastCheckpointCpuTime
      ensures Value(false) == Next(Next(old(Value(true)), StoreTime), ClearReady)
      ensures inCriticalSection == Max(old(inCriticalSection) - 1, 0)
      ensures lastCheckpointCpuTime == lastWuCpuTime == cpu + wuCpuTime
    {
      lastWuCpuTime := cpu + wuCpuTime;
      lastCheckpointCpuTime := lastWuCpuTime;
      timeUntilCheckpoint := MinCheckpointPeriod();
      inCriticalSection := Max(inCriticalSection - 1, 0);
      readyToCheckpoint := false;
    }
  }
}
