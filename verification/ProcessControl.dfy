/** The suspend/resume/quit/abort protocol between the client and a running application
    (client/app_control.cpp, client/app.cpp, api/boinc_api.cpp), Unix, direct process action.

    Client, timer thread and worker thread take steps in any order; each step makes at most one
    access to a variable that another thread reads or writes without the mutex. */
module ProcessControl {
  import opened Wrappers

  datatype Msg = Suspend | Resume | Quit | Abort | RereadAppInfo | NetworkAvailable

  /* ---------- the client's message queue (client/app.cpp:944-1011) ---------- */

  /** Messages waiting in the client, and the one-slot channel to the application. */
  datatype Outbox = Outbox(queue: seq<Msg>, channel: Option<Msg>) {
    function Send(m: Msg): Outbox {
      if queue == [] && channel.None? then Outbox([], Some(m)) else Outbox(queue + [m], channel)
    }

    function Poll(): Outbox {
      if queue != [] && channel.None? then Outbox(queue[1..], Some(queue[0])) else this
    }

    predicate Purgeable(m: Msg) {
      queue != [] && queue[|queue| - 1] == m
    }

    /** Take back a queued `opposite` if it is the last message; otherwise send m. */
    function PurgeOrSend(opposite: Msg, m: Msg): Outbox {
      if Purgeable(opposite) then Outbox(queue[..|queue| - 1], channel) else Send(m)
    }

    function InFlight(): seq<Msg> {
      (if channel.Some? then [channel.value] else []) + queue
    }
  }

  /* ---------- the state ---------- */

  datatype TaskState = Uninitialized | Executing | Suspended | AbortPending | QuitPending | Gone

  /** Where the timer thread is in handle_process_control_msg() (api/boinc_api.cpp:1147-1243). */
  datatype TimerPc =
    | Idle                // between two calls, or no message
    | Got(m: Msg)         // took a message from the channel, does not hold the mutex yet
    | Match(m: Msg)       // holds the mutex from here to Finish
    | Deferring           // saw a critical section: about to set suspend_request
    | Suspending          // saw none: about to set suspended
    | Suspended2          // about to clear suspend_request
    | Resuming            // about to clear suspended
    | QuitTest(m: Msg)    // about to test for a quit request
    | QuitDecide(m: Msg)  // quit_request is set: about to read the critical section count
    | AbortTest(m: Msg)
    | AbortDecide(m: Msg)
    | Finish              // about to release the mutex
    | Exiting             // released the mutex: about to set worker_thread_exit_flag
    | HeartTest           // the client is dead: about to read the critical section count, without the mutex
    | HeartSet            // saw a critical section: about to set no_heartbeat
    | Stopped             // the thread has ended

  /** Where the worker is; Run is the application's own code, the rest is boinc_end_critical_section()
      (api/boinc_api.cpp:1556-1595). */
  datatype WorkerPc =
    | Run
    | Fix                 // the count went below zero: about to reset it
    | CheckHeart | CheckQuit | CheckAbort
    | Lock                // about to acquire the mutex
    | Test                // holds the mutex from here to UnlockAndSleep or Unlock
    | Clear               // about to clear suspend_request
    | Set                 // about to set suspended
    | UnlockAndSleep
    | Sleep               // the loop of suspend_activities(true)
    | Unlock
    | Exited

  /** worker_signal_handler() (api/boinc_api.cpp:1390-1421), which interrupts the worker anywhere. */
  datatype HandlerPc = NoHandler | CheckExit | SleepLoop

  datatype Owner = Nobody | Timer | Worker

  /** boinc_status.suspended, suspend_request, boinc_status.quit_request and abort_request,
      worker_thread_exit_flag, boinc_status.no_heartbeat. */
  datatype Flags = Flags(suspended: bool, suspendRequest: bool, quitRequest: bool, abortRequest: bool, exitFlag: bool,
                         noHeartbeat: bool)

  const NO_FLAGS := Flags(false, false, false, false, false, false)

  /** The worker thread: where it is, the signal handler's state, and in_critical_section. */
  datatype WorkerThread = WorkerThread(pc: WorkerPc, handler: HandlerPc, count: int)

  /** The application process. */
  datatype App = App(timer: TimerPc, worker: WorkerThread, mutex: Owner, flags: Flags)

  datatype State = State(task: TaskState, outbox: Outbox, app: App)

  /** A process that has just been started (client/app_start.cpp:600-601, 861-988). */
  const STARTED := State(Executing, Outbox([], None),
                         App(Idle, WorkerThread(Run, NoHandler, 0), Nobody, NO_FLAGS))

  predicate ProcessExists(t: TaskState) {
    t == Executing || t == TaskState.Suspended || t == AbortPending || t == QuitPending
  }

  datatype Step =
    | ClientSuspend | ClientResume | RequestExit | RequestAbort | SendOther(m: Msg) | Poll
    | NoticeExit(after: TaskState) | Start
    | Heartbeat | TimerStep | WorkerBegin | WorkerEnd | WorkerStep | Signal | HandlerStep | Die

  /* ---------- client steps ---------- */

  function DoSuspend(s: State): State {
    s.(outbox := s.outbox.PurgeOrSend(Resume, Suspend), task := TaskState.Suspended)
  }

  function DoResume(s: State): State {
    s.(outbox := s.outbox.PurgeOrSend(Suspend, Resume), task := Executing)
  }

  function DoExit(s: State): State {
    s.(outbox := s.outbox.Send(Quit), task := QuitPending)
  }

  function DoAbort(s: State): State {
    s.(outbox := s.outbox.Send(Abort), task := AbortPending)
  }

  /* ---------- timer thread ---------- */

  predicate TimerEnabled(s: State) {
    s.app.worker.pc != Exited &&
    match s.app.timer
    case Idle => s.outbox.channel.Some?
    case Got(_) => s.app.mutex == Nobody
    case Stopped => false
    case _ => true
  }

  function TimerNext(s: State): State
    requires TimerEnabled(s)
  {
    if s.app.timer == Idle then
      s.(app := s.app.(timer := Got(s.outbox.channel.value)), outbox := s.outbox.(channel := None))
    else s.(app := TimerGoesOn(s.app))
  }

  function TimerGoesOn(a: App): App
    requires a.timer != Idle && a.timer != Stopped
  {
    var f, count := a.flags, a.worker.count;
    match a.timer
    case Got(m) => a.(timer := Match(m), mutex := Timer)
    case Match(m) =>
      if m == Suspend then a.(timer := if count != 0 then Deferring else Suspending)
      else if m == Resume then a.(timer := Resuming, flags := f.(suspendRequest := f.suspended && f.suspendRequest))
      else a.(timer := QuitTest(m))
    case Deferring => a.(timer := QuitTest(Suspend), flags := f.(suspendRequest := true))
    case Suspending => a.(timer := Suspended2, flags := f.(suspended := true))
    case Suspended2 => a.(timer := QuitTest(Suspend), flags := f.(suspendRequest := false))
    case Resuming => a.(timer := QuitTest(Resume), flags := f.(suspended := false))
    case QuitTest(m) =>
      if f.quitRequest || m == Quit then a.(timer := QuitDecide(m), flags := f.(quitRequest := true))
      else a.(timer := AbortTest(m))
    case QuitDecide(m) => if count == 0 then a.(timer := Exiting, mutex := Nobody) else a.(timer := AbortTest(m))
    case AbortTest(m) =>
      if f.abortRequest || m == Abort then a.(timer := AbortDecide(m), flags := f.(abortRequest := true))
      else a.(timer := Finish)
    case AbortDecide(m) => if count == 0 then a.(timer := Exiting, mutex := Nobody) else a.(timer := Finish)
    case Finish => a.(timer := Idle, mutex := Nobody)
    case Exiting => a.(timer := Stopped, flags := f.(exitFlag := true))
    case HeartTest => a.(timer := if count == 0 then Exiting else HeartSet)
    case HeartSet => a.(timer := Idle, flags := f.(noHeartbeat := true))
  }

  /* ---------- worker thread ---------- */

  predicate WorkerEnabled(a: App) {
    a.worker.handler == NoHandler &&
    match a.worker.pc
    case Run => false
    case Lock => a.mutex == Nobody
    case Exited => false
    case _ => true
  }

  /** The first lines of boinc_end_critical_section(). */
  function AfterDecrement(w: WorkerThread): WorkerThread {
    var c := w.count - 1;
    w.(count := c, pc := if c < 0 then Fix else if c > 0 then Run else CheckHeart)
  }

  function At(w: WorkerThread, pc: WorkerPc): WorkerThread {
    w.(pc := pc)
  }

  /** The rest of it. */
  function WorkerNext(a: App): App
    requires WorkerEnabled(a)
  {
    var w, f := a.worker, a.flags;
    match w.pc
    case Fix => a.(worker := w.(count := 0, pc := CheckHeart))
    case CheckHeart => a.(worker := At(w, if f.noHeartbeat then Exited else CheckQuit))
    case CheckQuit => a.(worker := At(w, if f.quitRequest then Exited else CheckAbort))
    case CheckAbort => a.(worker := At(w, if f.abortRequest then Exited else Lock))
    case Lock => a.(worker := At(w, Test), mutex := Worker)
    case Test => a.(worker := At(w, if f.suspendRequest then Clear else Unlock))
    case Clear => a.(worker := At(w, Set), flags := f.(suspendRequest := false))
    case Set => a.(worker := At(w, UnlockAndSleep), flags := f.(suspended := true))
    case UnlockAndSleep => a.(worker := At(w, Sleep), mutex := Nobody)
    case Sleep => if f.suspended then a else a.(worker := At(w, Run))
    case Unlock => a.(worker := At(w, Run), mutex := Nobody)
  }

  /** In the handler's loop the worker sleeps as long as it is suspended outside critical sections. */
  function HandlerNext(w: WorkerThread, f: Flags): WorkerThread
    requires w.handler != NoHandler
  {
    match w.handler
    case CheckExit => if f.exitFlag then w.(pc := Exited, handler := NoHandler) else w.(handler := SleepLoop)
    case SleepLoop => if f.suspended && w.count == 0 then w else w.(handler := NoHandler)
  }

  /* ---------- runs ---------- */

  predicate IsWorkerStep(step: Step) {
    step.WorkerBegin? || step.WorkerEnd? || step.WorkerStep? || step.Signal? || step.HandlerStep?
  }

  predicate WorkerMay(a: App, step: Step) {
    a.worker.pc != Exited &&
    match step
    case WorkerBegin => a.worker.pc == Run && a.worker.handler == NoHandler
    case WorkerEnd => a.worker.pc == Run && a.worker.handler == NoHandler
    case WorkerStep => WorkerEnabled(a)
    case Signal => a.worker.handler == NoHandler
    case HandlerStep => a.worker.handler != NoHandler
    case _ => false
  }

  function WorkerDoes(a: App, step: Step): App
    requires WorkerMay(a, step)
  {
    match step
    case WorkerBegin => a.(worker := a.worker.(count := a.worker.count + 1))
    case WorkerEnd => a.(worker := AfterDecrement(a.worker))
    case WorkerStep => WorkerNext(a)
    case Signal => a.(worker := a.worker.(handler := CheckExit))
    case HandlerStep => a.(worker := HandlerNext(a.worker, a.flags))
  }

  predicate Enabled(s: State, step: Step) {
    match step
    case ClientSuspend => s.task == Executing
    case ClientResume => s.task == TaskState.Suspended
    case RequestExit => ProcessExists(s.task)
    case RequestAbort => s.task == Executing || s.task == TaskState.Suspended
    case SendOther(m) => ProcessExists(s.task) && (m == RereadAppInfo || m == NetworkAvailable)
    case Poll => ProcessExists(s.task)
    case NoticeExit(t) => ProcessExists(s.task) && s.app.worker.pc == Exited && !ProcessExists(t)
    case Start => s.task == Uninitialized && s.app.worker.pc == Exited
    case Heartbeat => s.app.timer == Idle && s.app.worker.pc != Exited
    case TimerStep => TimerEnabled(s)
    case Die => s.app.worker.pc != Exited
    case _ => WorkerMay(s.app, step)
  }

  function Apply(s: State, step: Step): State
    requires Enabled(s, step)
  {
    match step
    case ClientSuspend => DoSuspend(s)
    case ClientResume => DoResume(s)
    case RequestExit => DoExit(s)
    case RequestAbort => DoAbort(s)
    case SendOther(m) => s.(outbox := s.outbox.Send(m))
    case Poll => s.(outbox := s.outbox.Poll())
    case NoticeExit(t) => s.(task := t)
    case Start => STARTED
    case Heartbeat => s.(app := s.app.(timer := HeartTest))
    case TimerStep => TimerNext(s)
    case Die => s.(app := s.app.(worker := s.app.worker.(pc := Exited, handler := NoHandler)))
    case _ => s.(app := WorkerDoes(s.app, step))
  }

  /** Every step is possible when its turn comes. */
  predicate Legal(s: State, steps: seq<Step>)
    decreases |steps|
  {
    steps == [] || (Enabled(s, steps[0]) && Legal(Apply(s, steps[0]), steps[1..]))
  }

  function After(s: State, steps: seq<Step>): State
    requires Legal(s, steps)
    decreases |steps|
  {
    if steps == [] then s else After(Apply(s, steps[0]), steps[1..])
  }

  /* ---------- what messages in flight mean ---------- */

  function WantsAfter(wants: bool, m: Msg): bool {
    if m == Suspend then true else if m == Resume then false else wants
  }

  /** What the application will want once it has handled `msgs`. */
  function Fold(wants: bool, msgs: seq<Msg>): bool {
    if msgs == [] then wants else WantsAfter(Fold(wants, msgs[..|msgs| - 1]), msgs[|msgs| - 1])
  }

  /** Every suspend arrives when the application is not to be suspended, every resume when it is. */
  predicate Alternates(wants: bool, msgs: seq<Msg>) {
    msgs == [] ||
    var n := |msgs| - 1;
    Alternates(wants, msgs[..n]) &&
    (msgs[n] == Suspend ==> !Fold(wants, msgs[..n])) && (msgs[n] == Resume ==> Fold(wants, msgs[..n]))
  }

  lemma {:induction false} FoldSnoc(wants: bool, msgs: seq<Msg>, m: Msg)
    ensures Fold(wants, msgs + [m]) == WantsAfter(Fold(wants, msgs), m)
    ensures Alternates(wants, msgs + [m]) <==>
      Alternates(wants, msgs) && (m == Suspend ==> !Fold(wants, msgs)) && (m == Resume ==> Fold(wants, msgs))
  {
    assert (msgs + [m])[..|msgs|] == msgs;
  }

  /** Handling the first message changes neither. */
  lemma {:induction false} FoldHead(wants: bool, m: Msg, msgs: seq<Msg>)
    requires Alternates(wants, [m] + msgs)
    ensures Fold(wants, [m] + msgs) == Fold(WantsAfter(wants, m), msgs)
    ensures Alternates(WantsAfter(wants, m), msgs)
    ensures (m == Suspend ==> !wants) && (m == Resume ==> wants)
  {
    if msgs == [] {
      assert [m] + msgs == [] + [m];
      FoldSnoc(wants, [], m);
    } else {
      var front, last := msgs[..|msgs| - 1], msgs[|msgs| - 1];
      assert [m] + msgs == ([m] + front) + [last] && msgs == front + [last];
      FoldSnoc(wants, [m] + front, last);
      FoldHead(wants, m, front);
      FoldSnoc(WantsAfter(wants, m), front, last);
    }
  }

  /* ---------- the invariant ---------- */

  /** The message the timer thread has taken and not yet acted on. */
  function InHand(t: TimerPc): seq<Msg> {
    if t.Got? || t.Match? then [t.m] else if t.Deferring? || t.Suspending? then [Suspend] else []
  }

  /** The application is suspended or going to be, counting a half-finished change as done. */
  predicate Wants(a: App) {
    (a.flags.suspended && !a.timer.Resuming?) || a.flags.suspendRequest || a.worker.pc.Set?
  }

  function Pending(s: State): seq<Msg> {
    InHand(s.app.timer) + s.outbox.InFlight()
  }

  predicate TimerHolds(t: TimerPc) {
    !t.Idle? && !t.Got? && !t.Exiting? && !t.Stopped? && !t.HeartTest? && !t.HeartSet?
  }

  predicate WorkerHolds(w: WorkerPc) {
    w.Test? || w.Clear? || w.Set? || w.UnlockAndSleep? || w.Unlock?
  }

  predicate MutexInv(a: App) {
    (a.mutex == Timer <==> TimerHolds(a.timer)) && (a.mutex == Worker <==> WorkerHolds(a.worker.pc))
  }

  /** The count is the nesting depth, except while it is being corrected; past the decrement it is 0. */
  predicate CountInv(a: App) {
    if a.worker.pc.Run? then a.worker.count >= 0
    else if a.worker.pc.Fix? then a.worker.count < 0
    else a.worker.count == 0
  }

  predicate FlagInv(a: App) {
    !(a.flags.suspended && a.flags.suspendRequest) &&
    (a.worker.pc.Clear? ==> a.flags.suspendRequest) &&
    (a.worker.pc.Set? ==> !a.flags.suspendRequest && !a.flags.suspended) &&
    (a.timer.Suspended2? ==> a.flags.suspended) &&
    (a.timer.Resuming? ==> !a.flags.suspendRequest)
  }

  /** In a critical section, or on the way out and not yet past the check for a quit request. */
  predicate BeforeQuitCheck(a: App) {
    a.worker.count != 0 || a.worker.pc.CheckHeart? || a.worker.pc.CheckQuit?
  }

  /** The same for the lock. */
  predicate BeforeLock(a: App) {
    BeforeQuitCheck(a) || a.worker.pc.CheckAbort? || a.worker.pc.Lock?
  }

  predicate RequestInv(a: App) {
    (a.flags.suspendRequest ==> BeforeLock(a) || a.worker.pc.Test? || a.worker.pc.Clear?) &&
    (a.timer.Deferring? ==> BeforeLock(a)) &&
    (a.flags.quitRequest ==>
      BeforeQuitCheck(a) || a.timer.QuitDecide? || a.timer.Exiting? || a.flags.exitFlag) &&
    (a.flags.abortRequest ==>
      BeforeQuitCheck(a) || a.worker.pc.CheckAbort? || a.timer.AbortDecide? || a.timer.Exiting? || a.flags.exitFlag) &&
    (a.timer.Stopped? <==> a.flags.exitFlag)
  }

  predicate AppInv(a: App) {
    MutexInv(a) && CountInv(a) && FlagInv(a) && RequestInv(a)
  }

  /** The messages in flight take the application from what it wants now to what the client wants. */
  predicate AgreeInv(s: State) {
    Alternates(Wants(s.app), Pending(s)) &&
    (s.task == Executing ==> !Fold(Wants(s.app), Pending(s))) &&
    (s.task == TaskState.Suspended ==> Fold(Wants(s.app), Pending(s)))
  }

  predicate Inv(s: State) {
    s.app.worker.pc == Exited || (AppInv(s.app) && AgreeInv(s))
  }

  /* ---------- client steps keep it ---------- */

  lemma {:induction false} SendAppends(hand: seq<Msg>, o: Outbox, m: Msg)
    ensures hand + o.Send(m).InFlight() == (hand + o.InFlight()) + [m]
  {
  }

  /** Taking back the opposite message has the effect of sending the message. */
  lemma {:induction false} PurgeOrSendAgrees(wants: bool, hand: seq<Msg>, o: Outbox, suspend: bool)
    requires Alternates(wants, hand + o.InFlight()) && Fold(wants, hand + o.InFlight()) == !suspend
    ensures var m, opposite := if suspend then Suspend else Resume, if suspend then Resume else Suspend;
      var after := hand + o.PurgeOrSend(opposite, m).InFlight();
      Alternates(wants, after) && Fold(wants, after) == suspend
  {
    var m, opposite := if suspend then Suspend else Resume, if suspend then Resume else Suspend;
    if o.Purgeable(opposite) {
      var p := o.PurgeOrSend(opposite, m);
      assert hand + o.InFlight() == (hand + p.InFlight()) + [opposite];
      FoldSnoc(wants, hand + p.InFlight(), opposite);
    } else {
      SendAppends(hand, o, m);
      FoldSnoc(wants, hand + o.InFlight(), m);
    }
  }

  predicate IsClientStep(step: Step) {
    step.ClientSuspend? || step.ClientResume? || step.RequestExit? || step.RequestAbort? || step.SendOther? ||
    step.Poll?
  }

  lemma {:induction false} ClientStepKeeps(s: State, step: Step)
    requires AgreeInv(s) && IsClientStep(step) && Enabled(s, step)
    ensures Apply(s, step).app == s.app && AgreeInv(Apply(s, step))
  {
    var w, hand, o := Wants(s.app), InHand(s.app.timer), s.outbox;
    match step
    case ClientSuspend => PurgeOrSendAgrees(w, hand, o, true);
    case ClientResume => PurgeOrSendAgrees(w, hand, o, false);
    case RequestExit => SendAppends(hand, o, Quit); FoldSnoc(w, Pending(s), Quit);
    case RequestAbort => SendAppends(hand, o, Abort); FoldSnoc(w, Pending(s), Abort);
    case SendOther(m) => SendAppends(hand, o, m); FoldSnoc(w, Pending(s), m);
    case Poll => assert o.Poll().InFlight() == o.InFlight();
  }

  /* ---------- timer steps keep it ---------- */

  /** A suspend in hand finds the application not suspended, a resume finds it suspended. */
  predicate HandInv(a: App) {
    (InHand(a.timer) == [Suspend] ==> !Wants(a)) && (InHand(a.timer) == [Resume] ==> Wants(a))
  }

  lemma {:induction false} HandHolds(s: State)
    requires AgreeInv(s)
    ensures HandInv(s.app)
  {
    if InHand(s.app.timer) != [] {
      FoldHead(Wants(s.app), InHand(s.app.timer)[0], s.outbox.InFlight());
    }
  }

  predicate TimerCanGoOn(a: App) {
    a.timer != Idle && a.timer != Stopped && a.worker.pc != Exited && (a.timer.Got? ==> a.mutex == Nobody)
  }

  lemma {:induction false} TimerKeepsMutex(a: App)
    requires MutexInv(a) && CountInv(a) && TimerCanGoOn(a)
    ensures MutexInv(TimerGoesOn(a)) && CountInv(TimerGoesOn(a))
  {
  }

  lemma {:induction false} TimerKeepsFlags(a: App)
    requires MutexInv(a) && FlagInv(a) && HandInv(a) && TimerCanGoOn(a)
    ensures FlagInv(TimerGoesOn(a))
  {
  }

  lemma {:induction false} TimerKeepsRequests(a: App)
    requires AppInv(a) && TimerCanGoOn(a)
    ensures RequestInv(TimerGoesOn(a))
  {
  }

  /** Acting on the message in hand makes the application want what the message says. */
  lemma {:induction false} TimerWants(a: App)
    requires MutexInv(a) && FlagInv(a) && HandInv(a) && TimerCanGoOn(a)
    ensures var b := TimerGoesOn(a);
      if InHand(b.timer) == InHand(a.timer) then Wants(b) == Wants(a)
      else |InHand(a.timer)| == 1 && InHand(b.timer) == [] && Wants(b) == WantsAfter(Wants(a), InHand(a.timer)[0])
  {
  }

  lemma {:induction false} TimerAgrees(s: State)
    requires AppInv(s.app) && AgreeInv(s) && TimerEnabled(s)
    ensures AgreeInv(TimerNext(s))
  {
    var next, a := TimerNext(s), s.app;
    if a.timer == Idle {
      assert Pending(next) == [s.outbox.channel.value] + s.outbox.queue == Pending(s);
    } else {
      HandHolds(s);
      TimerWants(a);
      if InHand(next.app.timer) != InHand(a.timer) {
        assert Pending(s) == [InHand(a.timer)[0]] + Pending(next);
        FoldHead(Wants(a), InHand(a.timer)[0], Pending(next));
      }
    }
  }

  lemma {:induction false} TimerStepKeeps(s: State)
    requires AppInv(s.app) && AgreeInv(s) && TimerEnabled(s)
    ensures AppInv(TimerNext(s).app) && AgreeInv(TimerNext(s))
  {
    TimerAgrees(s);
    if s.app.timer != Idle {
      HandHolds(s);
      TimerKeepsMutex(s.app);
      TimerKeepsFlags(s.app);
      TimerKeepsRequests(s.app);
    }
  }

  /* ---------- worker steps keep it ---------- */

  lemma {:induction false} WorkerNextKeeps(a: App)
    requires MutexInv(a) && CountInv(a) && FlagInv(a) && WorkerEnabled(a)
    ensures var b := WorkerNext(a);
      b.timer == a.timer &&
      (b.worker.pc == Exited || (MutexInv(b) && CountInv(b) && FlagInv(b) && Wants(b) == Wants(a)))
  {
  }

  lemma {:induction false} WorkerNextKeepsRequests(a: App)
    requires AppInv(a) && WorkerEnabled(a)
    ensures WorkerNext(a).worker.pc == Exited || RequestInv(WorkerNext(a))
  {
  }

  lemma {:induction false} WorkerKeepsApp(a: App, step: Step)
    requires AppInv(a) && WorkerMay(a, step)
    ensures var b := WorkerDoes(a, step);
      b.timer == a.timer && (b.worker.pc == Exited || (AppInv(b) && Wants(b) == Wants(a)))
  {
    if step == WorkerStep {
      WorkerNextKeeps(a);
      WorkerNextKeepsRequests(a);
    }
  }

  lemma {:induction false} StepKeeps(s: State, step: Step)
    requires Inv(s) && Enabled(s, step)
    ensures Inv(Apply(s, step))
  {
    if step == Start {
      assert Pending(STARTED) == [];
    } else if s.app.worker.pc != Exited {
      if step == TimerStep {
        TimerStepKeeps(s);
      } else if IsWorkerStep(step) {
        WorkerKeepsApp(s.app, step);
      } else if IsClientStep(step) {
        ClientStepKeeps(s, step);
      } else if step == Heartbeat {
        HeartbeatKeeps(s);
      }
    }
  }

  lemma {:induction false} HeartbeatKeeps(s: State)
    requires AppInv(s.app) && AgreeInv(s) && Enabled(s, Heartbeat)
    ensures AppInv(Apply(s, Heartbeat).app) && AgreeInv(Apply(s, Heartbeat))
  {
    assert Pending(Apply(s, Heartbeat)) == Pending(s);
  }

  lemma {:induction false} RunKeeps(s: State, steps: seq<Step>)
    requires Inv(s) && Legal(s, steps)
    ensures Inv(After(s, steps))
    decreases |steps|
  {
    if steps != [] {
      StepKeeps(s, steps[0]);
      RunKeeps(Apply(s, steps[0]), steps[1..]);
    }
  }

  /* ---------- what holds in every run ---------- */

  /** On every interleaving: whenever the mutex is free and the task is executing or suspended, the
      messages in the timer thread's hand, in the channel and in the queue, folded over what the
      application intends, give exactly the client's task state. */
  lemma {:induction false} SuspendAgreement(steps: seq<Step>)
    requires Legal(STARTED, steps)
    ensures var s := After(STARTED, steps); var f := s.app.flags;
      s.app.worker.pc != Exited ==>
        !(f.suspended && f.suspendRequest) &&
        (s.app.mutex == Nobody && (s.task == Executing || s.task == TaskState.Suspended) ==>
          var hand := if s.app.timer.Got? then [s.app.timer.m] else [];
          Fold(f.suspended || f.suspendRequest, hand + s.outbox.InFlight()) == (s.task == TaskState.Suspended))
  {
    assert Inv(STARTED) by { assert Pending(STARTED) == []; }
    RunKeeps(STARTED, steps);
  }

  /** On every interleaving: once the timer thread is done with a request it deferred, the worker is
      still in a critical section or has not reached the check that honours it. */
  lemma {:induction false} NoLostRequest(steps: seq<Step>)
    requires Legal(STARTED, steps)
    ensures var a := After(STARTED, steps).app; var w := a.worker;
      w.pc != Exited && (a.timer == Idle || a.timer.Got? || a.timer == HeartTest || a.timer == HeartSet) ==>
        (a.flags.suspendRequest ==>
          w.count != 0 || w.pc in {CheckHeart, CheckQuit, CheckAbort, Lock, Test, Clear}) &&
        (a.flags.quitRequest ==> w.count != 0 || w.pc == CheckHeart || w.pc == CheckQuit) &&
        (a.flags.abortRequest ==> w.count != 0 || w.pc in {CheckHeart, CheckQuit, CheckAbort})
  {
    assert Inv(STARTED) by { assert Pending(STARTED) == []; }
    RunKeeps(STARTED, steps);
  }

  /** The worker never sleeps for a suspension inside a critical section, and the mutex belongs to the
      thread that is between its acquire and its release. */
  lemma {:induction false} SleepsOnlyOutside(steps: seq<Step>)
    requires Legal(STARTED, steps)
    ensures var a := After(STARTED, steps).app; var w := a.worker;
      w.pc != Exited ==>
        (w.pc == Sleep || (w.handler == SleepLoop && HandlerNext(w, a.flags) == w) ==> w.count == 0) &&
        !(TimerHolds(a.timer) && WorkerHolds(w.pc))
  {
    assert Inv(STARTED) by { assert Pending(STARTED) == []; }
    RunKeeps(STARTED, steps);
  }

  /* ---------- where the protocol gets stuck ---------- */

  /** The signal handler sleeps although the worker it interrupted holds the mutex. */
  predicate Stuck(a: App) {
    MutexInv(a) && a.mutex == Worker && a.worker.handler == SleepLoop && a.flags.suspended && a.worker.count == 0
  }

  /** Nothing but the death of the process ends that: no resume gets through. */
  lemma {:induction false} StuckStays(s: State, steps: seq<Step>)
    requires Stuck(s.app) && Legal(s, steps) && Die !in steps
    ensures Stuck(After(s, steps).app)
    decreases |steps|
  {
    if steps != [] {
      assert steps[0] in steps;
      assert s.app.worker.pc != Exited && !TimerHolds(s.app.timer);
      StuckStaysStep(s, steps[0]);
      StuckStays(Apply(s, steps[0]), steps[1..]);
    }
  }

  lemma {:induction false} StuckStaysStep(s: State, step: Step)
    requires Stuck(s.app) && Enabled(s, step) && step != Die
    ensures Stuck(Apply(s, step).app)
  {
  }

  /** The signal handler finds the worker suspended while that holds the mutex, and does not end the
      process. */
  predicate Sticking(a: App) {
    a.worker.handler == CheckExit && WorkerHolds(a.worker.pc) && a.flags.suspended && !a.flags.exitFlag
  }

  /** A step of the handler gets stuck exactly there. */
  lemma {:induction false} StickingStep(s: State)
    requires Inv(s) && Enabled(s, HandlerStep) && s.app.worker.handler == CheckExit
    ensures Stuck(Apply(s, HandlerStep).app) <==> Sticking(s.app)
  {
  }

  /** At some point of the run the handler takes its first step in a state that is Sticking. */
  predicate Sticks(s: State, steps: seq<Step>)
    requires Legal(s, steps)
    decreases |steps|
  {
    steps != [] &&
    ((steps[0] == HandlerStep && Sticking(s.app)) || Sticks(Apply(s, steps[0]), steps[1..]))
  }

  lemma {:induction false} TimerNeverSticks(a: App)
    requires AppInv(a) && TimerCanGoOn(a) && !Stuck(a)
    ensures !Stuck(TimerGoesOn(a))
  {
    TimerKeepsMutex(a);
  }

  lemma {:induction false} WorkerNeverSticks(a: App)
    requires WorkerEnabled(a)
    ensures !Stuck(WorkerNext(a))
  {
  }

  lemma {:induction false} OnlyStickingSticks(s: State, step: Step)
    requires Inv(s) && Enabled(s, step) && step != Die && !Stuck(s.app)
    ensures Stuck(Apply(s, step).app) <==> step == HandlerStep && Sticking(s.app)
  {
    match step
    case TimerStep => if s.app.timer != Idle { TimerNeverSticks(s.app); }
    case WorkerStep => WorkerNeverSticks(s.app);
    case _ =>
  }

  /** Exactly when a run gets stuck, whatever the other threads do between the handler's steps: if and
      only if the handler looks at the exit flag, finds it clear, and has interrupted the worker while
      that holds the mutex with the suspended flag set. */
  lemma {:induction false} SticksIff(s: State, steps: seq<Step>)
    requires Inv(s) && !Stuck(s.app) && Legal(s, steps) && Die !in steps
    ensures Stuck(After(s, steps).app) <==> Sticks(s, steps)
    decreases |steps|
  {
    if steps != [] {
      assert steps[0] in steps;
      var next := Apply(s, steps[0]);
      StepKeeps(s, steps[0]);
      OnlyStickingSticks(s, steps[0]);
      if Stuck(next.app) {
        StuckStays(next, steps[1..]);
      } else {
        SticksIff(next, steps[1..]);
      }
    }
  }

  /** The worker holds the mutex with the suspended flag set. */
  predicate Exposed(a: App) {
    WorkerHolds(a.worker.pc) && a.flags.suspended
  }

  /** Signals are held back while the worker is exposed. */
  predicate Masked(s: State, steps: seq<Step>)
    requires Legal(s, steps)
    decreases |steps|
  {
    steps == [] || ((steps[0] == Signal ==> !Exposed(s.app)) && Masked(Apply(s, steps[0]), steps[1..]))
  }

  lemma {:induction false} MaskedStep(s: State, step: Step)
    requires Inv(s) && Enabled(s, step) && (step == Signal ==> !Exposed(s.app))
    requires s.app.worker.handler != NoHandler ==> !Exposed(s.app)
    ensures Apply(s, step).app.worker.handler != NoHandler ==> !Exposed(Apply(s, step).app)
  {
    match step
    case TimerStep => if s.app.timer != Idle { TimerNeverExposes(s.app); }
    case WorkerStep => WorkerUninterrupted(s.app);
    case _ =>
  }

  lemma {:induction false} TimerNeverExposes(a: App)
    requires AppInv(a) && TimerCanGoOn(a)
    ensures TimerGoesOn(a).worker == a.worker && (Exposed(TimerGoesOn(a)) ==> Exposed(a))
  {
  }

  lemma {:induction false} WorkerUninterrupted(a: App)
    requires WorkerEnabled(a)
    ensures WorkerNext(a).worker.handler == NoHandler
  {
  }

  /** Then no run ever sticks. */
  lemma {:induction false} MaskedNeverSticks(s: State, steps: seq<Step>)
    requires Inv(s) && Legal(s, steps) && Masked(s, steps)
    requires s.app.worker.handler != NoHandler ==> !Exposed(s.app)
    ensures !Stuck(After(s, steps).app)
    decreases |steps|
  {
    if steps != [] {
      StepKeeps(s, steps[0]);
      MaskedStep(s, steps[0]);
      MaskedNeverSticks(Apply(s, steps[0]), steps[1..]);
    }
  }

  lemma {:induction false} Extend(run: seq<Step>, s: State, step: Step) returns (run': seq<Step>, s': State)
    requires Legal(STARTED, run) && Die !in run && s == After(STARTED, run)
    requires Enabled(s, step) && step != Die
    ensures Legal(STARTED, run') && Die !in run' && s' == After(STARTED, run')
    ensures s' == Apply(s, step)
  {
    run', s' := run + [step], Apply(s, step);
    Snoc(STARTED, run, step);
  }

  lemma {:induction false} Snoc(s: State, run: seq<Step>, step: Step)
    requires Legal(s, run) && Enabled(After(s, run), step)
    ensures Legal(s, run + [step]) && After(s, run + [step]) == Apply(After(s, run), step)
    decreases |run|
  {
    if run != [] {
      Snoc(Apply(s, run[0]), run[1..], step);
      assert (run + [step])[1..] == run[1..] + [step];
    }
  }

  /** A suspend arrives in a critical section. */
  lemma {:induction false} SuspendReceived() returns (run: seq<Step>, s: State)
    ensures Legal(STARTED, run) && Die !in run && s == After(STARTED, run)
    ensures s.app == App(Deferring, WorkerThread(Run, NoHandler, 1), Timer, STARTED.app.flags)
  {
    run, s := [], STARTED;
    run, s := Extend(run, s, WorkerBegin);
    run, s := Extend(run, s, ClientSuspend);
    assert s.outbox.channel == Some(Suspend);
    run, s := Extend(run, s, TimerStep);
    run, s := Extend(run, s, TimerStep);
    run, s := Extend(run, s, TimerStep);
  }

  /** The timer thread defers it. */
  lemma {:induction false} SuspendDeferred() returns (run: seq<Step>, s: State)
    ensures Legal(STARTED, run) && Die !in run && s == After(STARTED, run)
    ensures s.app == App(Idle, WorkerThread(Run, NoHandler, 1), Nobody, NO_FLAGS.(suspendRequest := true))
  {
    run, s := SuspendReceived();
    run, s := Extend(run, s, TimerStep);
    assert s.app.timer == QuitTest(Suspend);
    run, s := DeferralEnds(run, s);
  }

  lemma {:induction false} DeferralEnds(run0: seq<Step>, s0: State) returns (run: seq<Step>, s: State)
    requires Legal(STARTED, run0) && Die !in run0 && s0 == After(STARTED, run0)
    requires s0.app.timer == QuitTest(Suspend) && s0.app.worker.pc == Run
    requires s0.app.flags == NO_FLAGS.(suspendRequest := true)
    ensures Legal(STARTED, run) && Die !in run && s == After(STARTED, run)
    ensures s.app == s0.app.(timer := Idle, mutex := Nobody)
  {
    run, s := Extend(run0, s0, TimerStep);
    assert s.app == s0.app.(timer := AbortTest(Suspend));
    run, s := Extend(run, s, TimerStep);
    assert s.app == s0.app.(timer := Finish);
    run, s := Extend(run, s, TimerStep);
  }

  /** The worker leaves the section, up to the lock. */
  lemma {:induction false} SectionLeft() returns (run: seq<Step>, s: State)
    ensures Legal(STARTED, run) && Die !in run && s == After(STARTED, run)
    ensures s.app == App(Idle, WorkerThread(Lock, NoHandler, 0), Nobody, NO_FLAGS.(suspendRequest := true))
  {
    run, s := SuspendDeferred();
    run, s := Extend(run, s, WorkerEnd);
    run, s := Extend(run, s, WorkerStep);
    run, s := Extend(run, s, WorkerStep);
    run, s := Extend(run, s, WorkerStep);
  }

  /** It honours the request, up to the release of the mutex. */
  lemma {:induction false} SuspendHonoured() returns (run: seq<Step>, s: State)
    ensures Legal(STARTED, run) && Die !in run && s == After(STARTED, run)
    ensures s.app == App(Idle, WorkerThread(UnlockAndSleep, NoHandler, 0), Worker, NO_FLAGS.(suspended := true))
  {
    run, s := SectionLeft();
    run, s := Extend(run, s, WorkerStep);
    run, s := Extend(run, s, WorkerStep);
    run, s := Extend(run, s, WorkerStep);
    run, s := Extend(run, s, WorkerStep);
  }

  /** A run that sticks: the signal comes before the worker releases the mutex. */
  lemma {:induction false} SomeRunSticks() returns (run: seq<Step>)
    ensures Legal(STARTED, run) && Die !in run && Stuck(After(STARTED, run).app)
  {
    var s;
    run, s := SuspendHonoured();
    run, s := Extend(run, s, Signal);
    run, s := Extend(run, s, HandlerStep);
  }

  /* ---------- the code of the three parties, run without interference ---------- */

  /** MSG_CHANNEL: one slot. */
  class MsgChannel {
    var slot: Option<Msg>

    constructor ()
      ensures slot == None
    {
      slot := None;
    }

    method SendMsg(m: Msg) returns (sent: bool)
      modifies this
      ensures sent == old(slot).None? && slot == if sent then Some(m) else old(slot)
    {
      if slot.Some? {
        return false;
      }
      slot := Some(m);
      return true;
    }

    method GetMsg() returns (m: Option<Msg>)
      modifies this
      ensures m == old(slot) && slot == None
    {
      m := slot;
      slot := None;
    }
  }

  /** MSG_QUEUE; `lastBlock` is the time since which a message could not be sent, 0 if none. */
  class MsgQueue {
    var msgs: seq<Msg>
    var lastBlock: real

    constructor ()
      ensures msgs == [] && lastBlock == 0.0
    {
      msgs, lastBlock := [], 0.0;
    }

    ghost function View(channel: MsgChannel): Outbox
      reads this, channel
    {
      Outbox(msgs, channel.slot)
    }

    method MsgQueueSend(m: Msg, channel: MsgChannel, now: real)
      modifies this, channel
      ensures View(channel) == old(View(channel)).Send(m)
      ensures lastBlock ==
        if old(msgs) == [] && old(channel.slot).None? then 0.0
        else if old(lastBlock) == 0.0 then now else old(lastBlock)
    {
      if msgs == [] {
        var sent := channel.SendMsg(m);
        if sent {
          lastBlock := 0.0;
          return;
        }
      }
      msgs := msgs + [m];
      if lastBlock == 0.0 {
        lastBlock := now;
      }
    }

    method MsgQueuePoll(channel: MsgChannel)
      modifies this, channel
      ensures View(channel) == old(View(channel)).Poll()
      ensures lastBlock == if old(msgs) != [] && old(channel.slot).None? then 0.0 else old(lastBlock)
    {
      if msgs == [] {
        return;
      }
      var sent := channel.SendMsg(msgs[0]);
      if sent {
        msgs := msgs[1..];
        lastBlock := 0.0;
      }
    }

    method MsgQueuePurge(m: Msg) returns (purged: bool)
      modifies this
      ensures purged == (old(msgs) != [] && old(msgs)[|old(msgs)| - 1] == m)
      ensures msgs == (if purged then old(msgs)[..|old(msgs)| - 1] else old(msgs)) && lastBlock == old(lastBlock)
    {
      if msgs == [] {
        return false;
      }
      if msgs[|msgs| - 1] == m {
        msgs := msgs[..|msgs| - 1];
        return true;
      }
      return false;
    }
  }

  datatype PreemptType = RemoveNever | RemoveMaybeUser | RemoveMaybeSched | RemoveAlways

  /** A task is removed from memory always, never, or unless it would lose its work or preferences let
      it stay; a GPU job would tie up the GPU's memory. */
  predicate Removes(t: PreemptType, usesGpu: bool, checkpointed: bool, leaveInMemory: bool) {
    t == RemoveAlways || (t != RemoveNever && (usesGpu || (checkpointed && !leaveInMemory)))
  }

  /** The part of ACTIVE_TASK that talks to the application; `channel` is null without shared memory. */
  class ActiveTask {
    var taskState: TaskState
    var quitTime: real
    var abortTime: real
    const queue: MsgQueue
    const channel: MsgChannel?

    constructor (channel: MsgChannel?)
      ensures taskState == Executing && this.channel == channel && fresh(queue)
    {
      this.channel := channel;
      queue := new MsgQueue();
      taskState, quitTime, abortTime := Executing, 0.0, 0.0;
    }

    /** The client's half of the protocol state, beside the given application. */
    ghost function View(app: App): State
      requires channel != null
      reads this, queue, channel
    {
      State(taskState, queue.View(channel), app)
    }

    /** The code logs an error and goes on when the task is not executing. */
    method SuspendTask(now: real, ghost app: App)
      modifies this, queue, channel
      ensures channel == null ==> taskState == old(taskState) && queue.msgs == old(queue.msgs)
      ensures channel != null ==> View(app) == old(DoSuspend(View(app)))
    {
      if channel == null {
        return;
      }
      var purged := queue.MsgQueuePurge(Resume);
      if !purged {
        queue.MsgQueueSend(Suspend, channel, now);
      }
      taskState := TaskState.Suspended;
    }

    /** The code logs an error and goes on when the task is not suspended. */
    method UnsuspendTask(now: real, ghost app: App)
      modifies this, queue, channel
      ensures channel == null ==> taskState == old(taskState) && queue.msgs == old(queue.msgs)
      ensures channel != null ==> View(app) == old(DoResume(View(app)))
    {
      if channel == null {
        return;
      }
      var purged := queue.MsgQueuePurge(Suspend);
      if !purged {
        queue.MsgQueueSend(Resume, channel, now);
      }
      taskState := Executing;
    }

    /** Without shared memory the task still counts as quitting. */
    method RequestExit(now: real, ghost app: App)
      modifies this, queue, channel
      ensures channel == null ==> taskState == QuitPending && queue.msgs == old(queue.msgs)
      ensures channel != null ==> View(app) == old(DoExit(View(app)))
      ensures quitTime == now && abortTime == old(abortTime)
    {
      if channel != null {
        queue.MsgQueueSend(Quit, channel, now);
      }
      taskState := QuitPending;
      quitTime := now;
    }

    method RequestAbort(now: real, ghost app: App)
      modifies this, queue, channel
      ensures channel == null ==> taskState == AbortPending && queue.msgs == old(queue.msgs)
      ensures channel != null ==> View(app) == old(DoAbort(View(app)))
      ensures abortTime == now && quitTime == old(quitTime)
    {
      if channel != null {
        queue.MsgQueueSend(Abort, channel, now);
      }
      taskState := AbortPending;
      abortTime := now;
    }

    /** A preempted task is told to quit, or, if it stays in memory and is executing, to suspend. */
    method Preempt(t: PreemptType, usesGpu: bool, checkpointed: bool, leaveInMemory: bool, now: real, ghost app: App)
      modifies this, queue, channel
      ensures channel == null ==>
        queue.msgs == old(queue.msgs) &&
        taskState == if Removes(t, usesGpu, checkpointed, leaveInMemory) then QuitPending else old(taskState)
      ensures channel != null ==>
        View(app) ==
          if Removes(t, usesGpu, checkpointed, leaveInMemory) then DoExit(old(View(app)))
          else if old(taskState) == Executing then DoSuspend(old(View(app)))
          else old(View(app))
      // a GPU task stays in memory only if it is never to be removed
      ensures t == RemoveAlways || (t != RemoveNever && usesGpu) ==> taskState == QuitPending
      // a task that never checkpointed stays in memory, and so does one that preferences leave there
      ensures t == RemoveNever || (t != RemoveAlways && !usesGpu && (!checkpointed || leaveInMemory)) ==>
        taskState == if channel != null && old(taskState) == Executing then TaskState.Suspended else old(taskState)
      ensures t != RemoveNever && !usesGpu && checkpointed && !leaveInMemory ==> taskState == QuitPending
    {
      var remove := false;
      match t {
        case RemoveNever => remove := false;
        case RemoveMaybeUser | RemoveMaybeSched =>
          if usesGpu {
            remove := true;
          } else if !checkpointed {
            remove := false;
          } else {
            remove := !leaveInMemory;
          }
        case RemoveAlways => remove := true;
      }
      if remove {
        RequestExit(now, app);
      } else if taskState == Executing {
        SuspendTask(now, app);
      }
    }

    /** Resume a scheduled task that is suspended. */
    method ResumeScheduled(now: real, ghost app: App)
      modifies this, queue, channel
      ensures channel == null ==> taskState == old(taskState) && queue.msgs == old(queue.msgs)
      ensures channel != null ==>
        View(app) == if old(taskState) == TaskState.Suspended then DoResume(old(View(app))) else old(View(app))
    {
      if taskState == TaskState.Suspended {
        UnsuspendTask(now, app);
      }
    }
  }

  function Rank(t: TimerPc): nat {
    match t
    case Idle => 0 case Stopped => 0 case Exiting => 1 case Finish => 1 case AbortDecide(_) => 2 case AbortTest(_) => 3
    case HeartSet => 1 case HeartTest => 2
    case QuitDecide(_) => 4 case QuitTest(_) => 5 case Resuming => 6 case Suspended2 => 6 case Deferring => 6
    case Suspending => 7 case Match(_) => 8 case Got(_) => 9
  }

  /** The timer thread alone, until it is done with its message. */
  function TimerAlone(a: App): App
    decreases Rank(a.timer)
  {
    if a.timer == Idle || a.timer == Stopped then a else TimerAlone(TimerGoesOn(a))
  }

  /** The worker alone, until it is back in the application, asleep or gone. */
  function WorkerAlone(a: App): App
    requires a.worker.handler == NoHandler
    decreases WorkerRank(a.worker.pc)
  {
    if a.worker.pc == Run || a.worker.pc == Sleep || a.worker.pc == Exited || (a.worker.pc == Lock && a.mutex != Nobody)
    then a else WorkerAlone(WorkerNext(a))
  }

  function WorkerRank(w: WorkerPc): nat {
    match w
    case Fix => 9 case CheckHeart => 8 case CheckQuit => 7 case CheckAbort => 6 case Lock => 5
    case Test => 4 case Clear => 3 case Set => 2
    case UnlockAndSleep => 1 case Unlock => 1 case _ => 0
  }

  /** The flags after the suspend and resume part of handle_process_control_msg(). */
  function ApplyMsg(f: Flags, count: int, m: Msg): Flags {
    if m == Suspend then
      if count != 0 then f.(suspendRequest := true) else f.(suspended := true, suspendRequest := false)
    else if m == Resume then f.(suspended := false, suspendRequest := f.suspended && f.suspendRequest)
    else f
  }

  /** The flags after the quit and abort part. */
  function ApplyExit(f: Flags, count: int, m: Msg): Flags {
    var quit := f.quitRequest || m == Quit;
    if quit && count == 0 then f.(quitRequest := true, exitFlag := true)
    else
      var abort := f.abortRequest || m == Abort;
      f.(quitRequest := quit, abortRequest := abort, exitFlag := abort && count == 0)
  }

  lemma {:induction false} ApplyMsgSteps(a: App, m: Msg)
    requires a.timer == Got(m)
    ensures TimerAlone(a) == TimerAlone(App(QuitTest(m), a.worker, Timer, ApplyMsg(a.flags, a.worker.count, m)))
  {
    var b := TimerGoesOn(TimerGoesOn(a));
    assert TimerAlone(a) == TimerAlone(b);
    if m == Suspend && a.worker.count == 0 {
      assert TimerAlone(b) == TimerAlone(TimerGoesOn(TimerGoesOn(b)));
    } else if m == Suspend || m == Resume {
      assert TimerAlone(b) == TimerAlone(TimerGoesOn(b));
    }
  }

  lemma {:induction false} ApplyAbortSteps(a: App, m: Msg)
    requires a.timer == AbortTest(m) && !a.flags.exitFlag
    ensures var abort := a.flags.abortRequest || m == Abort; var stop := abort && a.worker.count == 0;
      TimerAlone(a) ==
        App(if stop then Stopped else Idle, a.worker, Nobody, a.flags.(abortRequest := abort, exitFlag := stop))
  {
    var b := TimerGoesOn(a);
    assert TimerAlone(a) == TimerAlone(b);
    if b.timer == AbortDecide(m) {
      b := TimerGoesOn(b);
      assert TimerAlone(a) == TimerAlone(b);
    }
    assert TimerAlone(b) == TimerGoesOn(b);
  }

  lemma {:induction false} ApplyExitSteps(a: App, m: Msg)
    requires a.timer == QuitTest(m) && !a.flags.exitFlag
    ensures var f := ApplyExit(a.flags, a.worker.count, m);
      TimerAlone(a) == App(if f.exitFlag then Stopped else Idle, a.worker, Nobody, f)
  {
    var b := TimerGoesOn(a);
    assert TimerAlone(a) == TimerAlone(b);
    if b.timer == QuitDecide(m) {
      b := TimerGoesOn(b);
      assert TimerAlone(a) == TimerAlone(b);
    }
    if b.timer == AbortTest(m) {
      ApplyAbortSteps(b, m);
    } else {
      assert TimerAlone(b) == TimerGoesOn(b);
    }
  }

  /** What boinc_end_critical_section() comes to when nobody interferes. */
  function EndSection(f: Flags, count: int): (Flags, int, WorkerPc) {
    var c := if count <= 0 then 0 else count - 1;
    if c != 0 then (f, c, Run)
    else if f.noHeartbeat || f.quitRequest || f.abortRequest then (f, c, Exited)
    else if f.suspendRequest then (f.(suspendRequest := false, suspended := true), c, Sleep)
    else (f, c, Run)
  }

  lemma {:induction false} EndSectionSteps(a: App)
    requires a.worker == WorkerThread(Run, NoHandler, a.worker.count) && a.mutex == Nobody
    ensures var (f, c, pc) := EndSection(a.flags, a.worker.count);
      WorkerAlone(a.(worker := AfterDecrement(a.worker))) == App(a.timer, WorkerThread(pc, NoHandler, c), Nobody, f)
  {
    var b := a.(worker := AfterDecrement(a.worker));
    if b.worker.pc == Fix {
      assert WorkerAlone(b) == WorkerAlone(WorkerNext(b));
      b := WorkerNext(b);
    }
    if b.worker.pc == CheckHeart {
      assert WorkerAlone(b) == WorkerAlone(WorkerNext(b));
      b := WorkerNext(b);
    }
    if b.worker.pc == CheckQuit {
      var lock := b.(worker := At(b.worker, Lock));
      assert WorkerAlone(b) == WorkerAlone(WorkerNext(b));
      if !b.flags.quitRequest {
        assert WorkerAlone(WorkerNext(b)) == WorkerAlone(WorkerNext(WorkerNext(b)));
        if !b.flags.abortRequest {
          LockedSteps(lock);
        }
      }
    }
  }

  lemma {:induction false} LockedSteps(a: App)
    requires a.worker.handler == NoHandler && a.worker.pc == Lock && a.mutex == Nobody
    ensures WorkerAlone(a) ==
      if a.flags.suspendRequest
      then a.(worker := At(a.worker, Sleep), flags := a.flags.(suspendRequest := false, suspended := true))
      else a.(worker := At(a.worker, Run))
  {
    var b := WorkerNext(WorkerNext(a));
    assert WorkerAlone(a) == WorkerAlone(b);
    if a.flags.suspendRequest {
      var c := WorkerNext(WorkerNext(b));
      assert WorkerAlone(b) == WorkerAlone(c);
      assert WorkerAlone(c) == WorkerNext(c);
    } else {
      assert WorkerAlone(b) == WorkerNext(b);
    }
  }

  const EXIT_ABORTED_BY_CLIENT := 194

  /** The flags after a message when another program acts on them: nothing but the request is recorded. */
  function Recorded(f: Flags, m: Msg): Flags {
    match m
    case Suspend => f.(suspended := true)
    case Resume => f.(suspended := false)
    case Quit => f.(quitRequest := true)
    case Abort => f.(abortRequest := true)
    case _ => f
  }

  /** The variables of api/boinc_api.cpp that the protocol uses. */
  class Runtime {
    const directProcessAction: bool
    var inCriticalSection: int
    var suspended: bool
    var suspendRequest: bool
    var quitRequest: bool
    var abortRequest: bool
    var exitFlag: bool
    var noHeartbeat: bool
    var rereadInitDataFile: bool
    var haveNetwork: bool

    constructor (direct: bool)
      ensures View(Idle, Run) == STARTED.app && directProcessAction == direct
      ensures !rereadInitDataFile && haveNetwork
    {
      directProcessAction := direct;
      inCriticalSection := 0;
      suspended, suspendRequest, quitRequest, abortRequest, exitFlag := false, false, false, false, false;
      noHeartbeat, rereadInitDataFile, haveNetwork := false, false, true;
    }

    ghost function TheFlags(): Flags
      reads this
    {
      Flags(suspended, suspendRequest, quitRequest, abortRequest, exitFlag, noHeartbeat)
    }

    /** The whole process while nobody holds the mutex. */
    ghost function View(timer: TimerPc, worker: WorkerPc): App
      reads this
    {
      App(timer, WorkerThread(worker, NoHandler, inCriticalSection), Nobody, TheFlags())
    }

    /** The suspend and resume part of handle_process_control_msg(). */
    method HandleSuspendResume(m: Msg)
      modifies `suspended, `suspendRequest
      ensures TheFlags() ==
        if directProcessAction then ApplyMsg(old(TheFlags()), inCriticalSection, m)
        else if m == Suspend || m == Resume then Recorded(old(TheFlags()), m)
        else old(TheFlags())
    {
      if m == Suspend {
        if directProcessAction {
          if inCriticalSection != 0 {
            suspendRequest := true;
          } else {
            suspended := true;
            suspendRequest := false;
          }
        } else {
          suspended := true;
        }
      }
      if m == Resume {
        if directProcessAction {
          if suspended {
          } else if suspendRequest {
            suspendRequest := false;
          }
        }
        suspended := false;
      }
    }

    /** The quit and abort part; `status` is the exit status when the timer thread ends the process. */
    method HandleQuitAbort(m: Msg) returns (stopped: bool, status: int)
      requires !exitFlag
      modifies `quitRequest, `abortRequest, `exitFlag
      ensures directProcessAction ==>
        TheFlags() == ApplyExit(old(TheFlags()), inCriticalSection, m) && stopped == exitFlag
      ensures stopped ==> status == if quitRequest then 0 else EXIT_ABORTED_BY_CLIENT
      ensures !directProcessAction ==>
        !stopped && TheFlags() == if m == Quit || m == Abort then Recorded(old(TheFlags()), m) else old(TheFlags())
    {
      if quitRequest || m == Quit {
        quitRequest := true;
        if inCriticalSection == 0 && directProcessAction {
          exitFlag := true;
          return true, 0;
        }
      }
      if abortRequest || m == Abort {
        abortRequest := true;
        if inCriticalSection == 0 && directProcessAction {
          exitFlag := true;
          return true, EXIT_ABORTED_BY_CLIENT;
        }
      }
      return false, 0;
    }

    /** handle_process_control_msg(), after the message was taken from the channel; `stopped` says
        that the timer thread ended by telling the worker to exit. */
    method HandleProcessControlMsg(m: Msg, ghost worker: WorkerPc) returns (stopped: bool, status: int)
      requires !exitFlag
      modifies this
      ensures directProcessAction ==>
        View(if stopped then Stopped else Idle, worker) == old(TimerAlone(View(Got(m), worker)))
      ensures !directProcessAction ==> !stopped && TheFlags() == Recorded(old(TheFlags()), m)
      ensures stopped ==> status == if quitRequest then 0 else EXIT_ABORTED_BY_CLIENT
      ensures inCriticalSection == old(inCriticalSection)
      ensures rereadInitDataFile == (old(rereadInitDataFile) || (!stopped && m == RereadAppInfo))
      ensures haveNetwork == (old(haveNetwork) || (!stopped && m == NetworkAvailable))
    {
      ghost var a := View(Got(m), worker);
      HandleSuspendResume(m);
      ghost var f := TheFlags();
      stopped, status := HandleQuitAbort(m);
      assert directProcessAction ==> View(if stopped then Stopped else Idle, worker) == TimerAlone(a) by {
        ApplyMsgSteps(a, m);
        ApplyExitSteps(App(QuitTest(m), a.worker, Timer, f), m);
      }
      if stopped {
        return;
      }
      if m == RereadAppInfo {
        rereadInitDataFile := true;
      }
      if m == NetworkAvailable {
        haveNetwork := true;
      }
    }

    /** timer_handler(), at a one-second boundary, once the client is dead. */
    method NoteDeadClient(ghost worker: WorkerPc) returns (stopped: bool)
      requires !exitFlag
      modifies this
      ensures directProcessAction ==>
        View(if stopped then Stopped else Idle, worker) == old(TimerAlone(View(HeartTest, worker)))
      ensures !directProcessAction ==> !stopped && TheFlags() == old(TheFlags()).(noHeartbeat := true)
      ensures (stopped <==> directProcessAction && inCriticalSection == 0) && exitFlag == stopped
      ensures noHeartbeat == (old(noHeartbeat) || !stopped)
      ensures inCriticalSection == old(inCriticalSection)
    {
      ghost var a := View(HeartTest, worker);
      assert TimerAlone(a) == TimerAlone(TimerGoesOn(a));
      if directProcessAction && inCriticalSection == 0 {
        exitFlag := true;
        return true;
      } else {
        noHeartbeat := true;
        return false;
      }
    }

    method BeginCriticalSection()
      modifies this
      ensures View(Idle, Run) == old(WorkerDoes(View(Idle, Run), WorkerBegin))
      ensures inCriticalSection == old(inCriticalSection) + 1 && TheFlags() == old(TheFlags())
    {
      inCriticalSection := inCriticalSection + 1;
    }

    /** The requests that were deferred, handled once the worker is out of the critical section. */
    method HonourRequests() returns (pc: WorkerPc, status: int)
      modifies `suspended, `suspendRequest
      ensures var f := old(TheFlags());
        if f.noHeartbeat || f.quitRequest || f.abortRequest then pc == Exited && TheFlags() == f
        else if f.suspendRequest then pc == Sleep && TheFlags() == f.(suspendRequest := false, suspended := true)
        else pc == Run && TheFlags() == f
      ensures pc == Exited ==> status == if noHeartbeat || quitRequest then 0 else EXIT_ABORTED_BY_CLIENT
    {
      if noHeartbeat {
        return Exited, 0;
      }
      if quitRequest {
        return Exited, 0;
      }
      if abortRequest {
        return Exited, EXIT_ABORTED_BY_CLIENT;
      }
      if suspendRequest {
        suspendRequest := false;
        suspended := true;
        return Sleep, 0;
      }
      return Run, 0;
    }

    /** boinc_end_critical_section(); `pc` says whether it returns, sleeps or exits. */
    method EndCriticalSection() returns (pc: WorkerPc, status: int)
      modifies this
      ensures directProcessAction ==>
        View(Idle, pc) == old(WorkerAlone(WorkerDoes(View(Idle, Run), WorkerEnd)))
      ensures !directProcessAction ==> pc == Run && TheFlags() == old(TheFlags())
      ensures inCriticalSection == if old(inCriticalSection) <= 0 then 0 else old(inCriticalSection) - 1
      ensures directProcessAction && inCriticalSection == 0 && (noHeartbeat || quitRequest || abortRequest) ==>
        pc == Exited
      ensures pc == Exited ==> status == if noHeartbeat || quitRequest then 0 else EXIT_ABORTED_BY_CLIENT
    {
      EndSectionSteps(View(Idle, Run));
      inCriticalSection := inCriticalSection - 1;
      if inCriticalSection < 0 {
        inCriticalSection := 0;
      }
      if inCriticalSection != 0 {
        return Run, 0;
      }
      if directProcessAction {
        pc, status := HonourRequests();
      } else {
        return Run, 0;
      }
    }
  }
}
