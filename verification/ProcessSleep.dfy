/** When a worker that sleeps in its signal handler never wakes up again (api/boinc_api.cpp:1390-1421): what
    the handler's loop waits for, what the timer thread and the client can still do about it, and the
    exact condition over all runs. */
module ProcessSleep {
  import opened ProcessControl
  import opened Wrappers

  /** The loop of the signal handler goes on. It does not look at the exit flag again, and no other signal
      is delivered meanwhile. */
  predicate Asleep(a: App) {
    a.worker.pc != Exited && a.worker.handler == SleepLoop && a.flags.suspended && a.worker.count == 0
  }

  /** Whatever happens short of the death of the process, the worker stays asleep. */
  ghost predicate AsleepForGood(s: State) {
    forall run :: Legal(s, run) && Die !in run ==> Asleep(After(s, run).app)
  }

  /* ---------- the timer thread has ended ---------- */

  /** The timer thread has told a sleeping worker to exit, and ended. */
  predicate Doomed(a: App) {
    Asleep(a) && a.timer == Stopped
  }

  lemma {:induction false} DoomedStaysStep(s: State, step: Step)
    requires Doomed(s.app) && Enabled(s, step) && step != Die
    ensures Doomed(Apply(s, step).app)
  {
  }

  /** Nothing but the death of the process ends that: nobody is left to take a message. */
  lemma {:induction false} DoomedStays(s: State, steps: seq<Step>)
    requires Doomed(s.app) && Legal(s, steps) && Die !in steps
    ensures Doomed(After(s, steps).app)
    decreases |steps|
  {
    if steps != [] {
      assert steps[0] in steps;
      DoomedStaysStep(s, steps[0]);
      DoomedStays(Apply(s, steps[0]), steps[1..]);
    }
  }

  /** The timer thread tells a sleeping worker to exit. */
  predicate Dooming(s: State, step: Step) {
    step == TimerStep && s.app.timer == Exiting && Asleep(s.app)
  }

  /** At some point of the run it does. */
  predicate Dooms(s: State, steps: seq<Step>)
    requires Legal(s, steps)
    decreases |steps|
  {
    steps != [] && (Dooming(s, steps[0]) || Dooms(Apply(s, steps[0]), steps[1..]))
  }

  lemma {:induction false} TimerDooms(a: App)
    requires TimerCanGoOn(a)
    ensures Doomed(TimerGoesOn(a)) <==> a.timer == Exiting && Asleep(a)
  {
  }

  /** A worker that the timer thread told to exit does not fall asleep any more. */
  lemma {:induction false} ToldDoesNotSleep(a: App, step: Step)
    requires AppInv(a) && WorkerMay(a, step) && !Doomed(a)
    ensures !Doomed(WorkerDoes(a, step))
  {
    if step == WorkerStep {
      WorkerUninterrupted(a);
    }
  }

  lemma {:induction false} OnlyDoomingDooms(s: State, step: Step)
    requires Inv(s) && Enabled(s, step) && step != Die && !Doomed(s.app)
    ensures Doomed(Apply(s, step).app) <==> Dooming(s, step)
  {
    if step == TimerStep && s.app.timer != Idle {
      TimerDooms(s.app);
    } else if IsWorkerStep(step) {
      ToldDoesNotSleep(s.app, step);
    }
  }

  /** Exactly when a run leaves the worker asleep with nobody to wake it because the timer thread ended. */
  lemma {:induction false} DoomsIff(s: State, steps: seq<Step>)
    requires Inv(s) && !Doomed(s.app) && Legal(s, steps) && Die !in steps
    ensures Doomed(After(s, steps).app) <==> Dooms(s, steps)
    decreases |steps|
  {
    if steps != [] {
      assert steps[0] in steps;
      var next := Apply(s, steps[0]);
      StepKeeps(s, steps[0]);
      OnlyDoomingDooms(s, steps[0]);
      if Doomed(next.app) {
        DoomedStays(next, steps[1..]);
      } else {
        DoomsIff(next, steps[1..]);
      }
    }
  }

  /** The two ends together: a run leads to one of them if and only if the handler fell asleep over the
      mutex, or the timer thread ended while the worker was asleep. */
  lemma {:induction false} EndsAsleepIff(s: State, steps: seq<Step>)
    requires Inv(s) && !Stuck(s.app) && !Doomed(s.app) && Legal(s, steps) && Die !in steps
    ensures Stuck(After(s, steps).app) || Doomed(After(s, steps).app) <==> Sticks(s, steps) || Dooms(s, steps)
  {
    SticksIff(s, steps);
    DoomsIff(s, steps);
  }

  /* ---------- whether an exit that was asked for comes about ---------- */

  /** Once the timer thread has ended, the process can still end by itself if and only if its worker was not
      asleep. */
  lemma {:induction false} ExitComesIff(s: State)
    requires Inv(s) && s.app.timer == Stopped && s.app.worker.pc != Exited
    ensures CanExit(s) <==> !Doomed(s.app)
  {
    if Doomed(s.app) {
      forall run | Legal(s, run) && Die !in run ensures After(s, run).app.worker.pc != Exited {
        DoomedStays(s, run);
      }
    } else {
      var run := ExitRun(s);
    }
  }

  ghost predicate CanExit(s: State) {
    exists run :: Legal(s, run) && Die !in run && After(s, run).app.worker.pc == Exited
  }

  lemma {:induction false} StepFirst(s: State, step: Step, rest: seq<Step>)
    requires Enabled(s, step) && step != Die && Legal(Apply(s, step), rest) && Die !in rest
    ensures Legal(s, [step] + rest) && Die !in [step] + rest
    ensures After(s, [step] + rest) == After(Apply(s, step), rest)
  {
    assert ([step] + rest)[1..] == rest;
  }

  /** The next signal finds the exit flag. */
  lemma {:induction false} ExitRun(s: State) returns (run: seq<Step>)
    requires Inv(s) && s.app.timer == Stopped && s.app.worker.pc != Exited && !Doomed(s.app)
    ensures Legal(s, run) && Die !in run && After(s, run).app.worker.pc == Exited
    decreases match s.app.worker.handler case SleepLoop => 2 case NoHandler => 1 case CheckExit => 0
  {
    var step := if s.app.worker.handler == NoHandler then Signal else HandlerStep;
    var next := Apply(s, step);
    StepKeeps(s, step);
    var rest := [];
    if s.app.worker.handler != CheckExit {
      rest := ExitRun(next);
    }
    StepFirst(s, step, rest);
    run := [step] + rest;
  }

  /* ---------- the exact condition ---------- */

  /** With the worker outside critical sections, the timer thread ends after this message. */
  predicate EndsTimer(f: Flags, m: Msg) {
    f.quitRequest || f.abortRequest || m == Quit || m == Abort
  }

  /** What some messages come to for a sleeping worker: a resume wakes it, or the timer thread ends before
      one, or neither. */
  function Verdict(f: Flags, msgs: seq<Msg>): Option<bool> {
    if msgs == [] then None
    else if msgs[0] == Resume then Some(true)
    else if EndsTimer(f, msgs[0]) then Some(false)
    else Verdict(f, msgs[1..])
  }

  /** The messages in flight wake the worker, or leave it to the client, which sends a resume only to a task
      that it has suspended. */
  predicate LaterWakes(s: State) {
    var v := Verdict(s.app.flags, s.outbox.InFlight());
    if v.Some? then v.value else s.task == TaskState.Suspended
  }

  /** The timer thread can get the mutex, and comes to a resume before it comes to its end; `later` says
      what comes of the messages that it has not taken yet. */
  predicate TimerWakes(a: App, later: bool) {
    a.mutex != Worker &&
    match a.timer
    case Got(m) => m == Resume || (!EndsTimer(a.flags, m) && later)
    case Match(m) => m == Resume || (!EndsTimer(a.flags, m) && later)
    case Resuming => true
    case Suspended2 => !EndsTimer(a.flags, Suspend) && later
    case QuitTest(m) => !EndsTimer(a.flags, m) && later
    case AbortTest(m) => !a.flags.abortRequest && m != Abort && later
    case Finish => later
    case Idle => later
    case HeartSet => later
    case _ => false
  }

  /** A sleeping worker may wake up. */
  predicate MayWake(s: State) {
    TimerWakes(s.app, LaterWakes(s))
  }

  lemma {:induction false} VerdictSnoc(f: Flags, msgs: seq<Msg>, m: Msg)
    ensures Verdict(f, msgs + [m]) == if Verdict(f, msgs).Some? then Verdict(f, msgs) else Verdict(f, [m])
  {
    if msgs == [] {
      assert msgs + [m] == [m];
    } else {
      assert (msgs + [m])[0] == msgs[0] && (msgs + [m])[1..] == msgs[1..] + [m];
      VerdictSnoc(f, msgs[1..], m);
    }
  }

  lemma {:induction false} VerdictSame(f: Flags, g: Flags, msgs: seq<Msg>)
    requires SameRequests(f, g)
    ensures Verdict(f, msgs) == Verdict(g, msgs)
  {
    if msgs != [] {
      VerdictSame(f, g, msgs[1..]);
    }
  }

  /** Without a resume among them, messages leave a suspended application suspended. */
  lemma {:induction false} UndecidedKeeps(f: Flags, msgs: seq<Msg>)
    requires Verdict(f, msgs).None?
    ensures Fold(true, msgs)
    ensures Alternates(true, msgs) ==> Suspend !in msgs
  {
    if msgs != [] {
      var n := |msgs| - 1;
      assert msgs == msgs[..n] + [msgs[n]];
      VerdictSnoc(f, msgs[..n], msgs[n]);
      UndecidedKeeps(f, msgs[..n]);
    }
  }

  /** When the task is executing, a resume is on its way. */
  lemma {:induction false} ExecutingIsDecided(s: State)
    requires Inv(s) && Asleep(s.app) && !MayWake(s) && s.task == Executing
    requires !s.app.timer.Resuming? && s.app.mutex != Worker
    ensures Verdict(s.app.flags, s.outbox.InFlight()).Some?
  {
    var hand, msgs := InHand(s.app.timer), s.outbox.InFlight();
    HandHolds(s);
    assert !Fold(true, msgs) by {
      if hand == [] {
        assert Pending(s) == msgs;
      } else {
        FoldHead(true, hand[0], msgs);
      }
    }
    if Verdict(s.app.flags, msgs).None? {
      UndecidedKeeps(s.app.flags, msgs);
    }
  }

  lemma {:induction false} LaterStaysFalse(s: State, step: Step)
    requires IsClientStep(step) && Enabled(s, step) && !LaterWakes(s)
    requires s.task == Executing ==> Verdict(s.app.flags, s.outbox.InFlight()).Some?
    ensures !LaterWakes(Apply(s, step))
  {
    var f, before := s.app.flags, s.outbox;
    match step
    case ClientSuspend => PurgeOrSendVerdict(f, before, Resume, Suspend);
    case ClientResume => PurgeOrSendVerdict(f, before, Suspend, Resume);
    case RequestExit => SendVerdict(f, before, Quit);
    case RequestAbort => SendVerdict(f, before, Abort);
    case SendOther(m) => SendVerdict(f, before, m);
    case Poll => PollKeeps(before);
  }

  lemma {:induction false} PollKeeps(o: Outbox)
    ensures o.Poll().InFlight() == o.InFlight()
  {
  }

  lemma {:induction false} SendVerdict(f: Flags, o: Outbox, m: Msg)
    ensures Verdict(f, o.Send(m).InFlight()) ==
      if Verdict(f, o.InFlight()).Some? then Verdict(f, o.InFlight()) else Verdict(f, [m])
  {
    assert o.Send(m).InFlight() == o.InFlight() + [m];
    VerdictSnoc(f, o.InFlight(), m);
  }

  lemma {:induction false} PurgeOrSendVerdict(f: Flags, o: Outbox, opposite: Msg, m: Msg)
    ensures var v := Verdict(f, o.InFlight()); var w := Verdict(f, o.PurgeOrSend(opposite, m).InFlight());
      if o.Purgeable(opposite) then w == v || (w.None? && v == Verdict(f, [opposite]))
      else w == if v.Some? then v else Verdict(f, [m])
  {
    if o.Purgeable(opposite) {
      var p := o.PurgeOrSend(opposite, m);
      assert o.InFlight() == p.InFlight() + [opposite];
      VerdictSnoc(f, p.InFlight(), opposite);
    } else {
      SendVerdict(f, o, m);
    }
  }

  lemma {:induction false} ClientCannotWake(s: State, step: Step)
    requires Inv(s) && Asleep(s.app) && !MayWake(s) && IsClientStep(step) && Enabled(s, step)
    ensures !MayWake(Apply(s, step))
  {
    assert Apply(s, step).app == s.app;
    if s.app.mutex != Worker && !LaterWakes(s) {
      if s.task == Executing && !s.app.timer.Resuming? {
        ExecutingIsDecided(s);
      }
      if s.app.timer != Resuming {
        LaterStaysFalse(s, step);
      }
    }
  }

  /** The timer thread takes a message. */
  lemma {:induction false} TakingKeepsHope(s: State)
    requires Asleep(s.app) && TimerEnabled(s) && s.app.timer == Idle && s.app.mutex != Worker
    ensures Asleep(TimerNext(s).app) && (MayWake(TimerNext(s)) <==> MayWake(s))
  {
    var m := s.outbox.channel.value;
    assert s.outbox.InFlight()[0] == m && s.outbox.InFlight()[1..] == TimerNext(s).outbox.InFlight();
  }

  predicate SameRequests(f: Flags, g: Flags) {
    f.quitRequest == g.quitRequest && f.abortRequest == g.abortRequest
  }

  lemma {:induction false} GoingOnSleeps(a: App)
    requires Asleep(a) && TimerCanGoOn(a) && a.timer != Resuming
    ensures Asleep(TimerGoesOn(a)) && TimerGoesOn(a).worker == a.worker
  {
  }

  /** The timer thread has the mutex where it must, and finds the worker outside critical sections. */
  predicate Regular(a: App) {
    a.worker.count == 0 && (TimerHolds(a.timer) ==> a.mutex == Timer) && (a.timer.Got? ==> a.mutex == Nobody)
  }

  /** The timer thread handles a suspend or resume. */
  lemma {:induction false} MessageKeepsHope(a: App, b: App, later: bool)
    requires Regular(a) && (a.timer.Got? || a.timer.Match? || a.timer.Suspended2?) && !SuspendComes(a.timer)
    requires b == TimerGoesOn(a)
    ensures SameRequests(a.flags, b.flags) && (TimerWakes(b, later) <==> TimerWakes(a, later))
  {
  }

  /** It looks for a request to quit. */
  lemma {:induction false} QuitKeepsHope(a: App, b: App, later: bool, later': bool)
    requires Regular(a) && a.timer.QuitTest? && b == TimerGoesOn(a)
    requires SameRequests(a.flags, b.flags) ==> later == later'
    ensures TimerWakes(b, later') <==> TimerWakes(a, later)
  {
    var m := a.timer.m;
    if a.flags.quitRequest || m == Quit {
      assert b.timer == QuitDecide(m);
    } else {
      assert b.timer == AbortTest(m) && b.flags == a.flags;
    }
  }

  /** It looks for a request to abort. */
  lemma {:induction false} AbortKeepsHope(a: App, b: App, later: bool, later': bool)
    requires Regular(a) && a.timer.AbortTest? && b == TimerGoesOn(a)
    requires SameRequests(a.flags, b.flags) ==> later == later'
    ensures TimerWakes(b, later') <==> TimerWakes(a, later)
  {
    var m := a.timer.m;
    if a.flags.abortRequest || m == Abort {
      assert b.timer == AbortDecide(m);
    } else {
      assert b.timer == Finish && b.flags == a.flags;
    }
  }

  /** It has decided to end the process. */
  lemma {:induction false} NoHopeLeft(a: App, b: App, later: bool)
    requires Regular(a) && (a.timer.QuitDecide? || a.timer.AbortDecide? || a.timer.Exiting? || a.timer.HeartTest?)
    requires b == TimerGoesOn(a)
    ensures SameRequests(a.flags, b.flags) && !TimerWakes(a, later) && !TimerWakes(b, later)
  {
    assert b.timer == Exiting || b.timer == Stopped;
  }

  /** It comes to the end of a message, or has noted that the client is dead. */
  lemma {:induction false} EndKeepsHope(a: App, b: App, later: bool)
    requires Regular(a) && (a.timer == Finish || a.timer == HeartSet) && b == TimerGoesOn(a)
    ensures SameRequests(a.flags, b.flags) && (TimerWakes(b, later) <==> TimerWakes(a, later))
  {
    assert b.timer == Idle;
  }

  /** The timer thread goes on with a message, or notes that the client is dead. */
  lemma {:induction false} GoingOnKeepsHope(a: App, b: App, later: bool, later': bool)
    requires MutexInv(a) && Asleep(a) && TimerCanGoOn(a) && b == TimerGoesOn(a)
    requires a.timer != Resuming && !SuspendComes(a.timer)
    requires SameRequests(a.flags, b.flags) ==> later == later'
    ensures Asleep(b) && (TimerWakes(b, later') <==> TimerWakes(a, later))
  {
    GoingOnSleeps(a);
    assert Regular(a);
    match a.timer
    case Got(_) => MessageKeepsHope(a, b, later);
    case Match(_) => MessageKeepsHope(a, b, later);
    case Suspended2 => MessageKeepsHope(a, b, later);
    case QuitTest(_) => QuitKeepsHope(a, b, later, later');
    case AbortTest(_) => AbortKeepsHope(a, b, later, later');
    case Finish => EndKeepsHope(a, b, later);
    case HeartSet => EndKeepsHope(a, b, later);
    case _ => NoHopeLeft(a, b, later);
  }

  predicate SuspendComes(t: TimerPc) {
    t == Got(Suspend) || t == Match(Suspend) || t == Deferring || t == Suspending
  }

  /** A suspended application is not told to suspend. */
  lemma {:induction false} NoSuspendComes(s: State)
    requires AgreeInv(s) && Asleep(s.app) && s.app.timer != Resuming
    ensures !SuspendComes(s.app.timer)
  {
    HandHolds(s);
  }

  lemma {:induction false} GoingOnKeepsLater(s: State, t: State)
    requires SameRequests(s.app.flags, t.app.flags) && t.outbox == s.outbox && t.task == s.task
    ensures LaterWakes(t) == LaterWakes(s)
  {
    VerdictSame(s.app.flags, t.app.flags, s.outbox.InFlight());
  }

  /** The timer thread's steps change nothing about whether a sleeping worker may wake up. */
  lemma {:induction false} TimerKeepsHope(s: State)
    requires Inv(s) && Asleep(s.app) && TimerEnabled(s) && s.app.timer != Resuming
    ensures Asleep(TimerNext(s).app) && (MayWake(TimerNext(s)) <==> MayWake(s))
  {
    if s.app.timer != Idle {
      var t := TimerNext(s);
      NoSuspendComes(s);
      if SameRequests(s.app.flags, t.app.flags) { GoingOnKeepsLater(s, t); }
      GoingOnKeepsHope(s.app, t.app, LaterWakes(s), LaterWakes(t));
    } else if s.app.mutex != Worker {
      TakingKeepsHope(s);
    }
  }

  lemma {:induction false} HopelessStep(s: State, step: Step)
    requires Inv(s) && Asleep(s.app) && !MayWake(s) && Enabled(s, step) && step != Die
    ensures Asleep(Apply(s, step).app) && !MayWake(Apply(s, step))
  {
    if IsClientStep(step) {
      ClientCannotWake(s, step);
    } else if step == TimerStep {
      TimerKeepsHope(s);
    }
  }

  lemma {:induction false} HopelessStays(s: State, steps: seq<Step>)
    requires Inv(s) && Asleep(s.app) && !MayWake(s) && Legal(s, steps) && Die !in steps
    ensures Asleep(After(s, steps).app) && !MayWake(After(s, steps))
    decreases |steps|
  {
    if steps != [] {
      assert steps[0] in steps;
      StepKeeps(s, steps[0]);
      HopelessStep(s, steps[0]);
      HopelessStays(Apply(s, steps[0]), steps[1..]);
    }
  }

  /** How far a resume is: in the timer thread's hand, on its way, or not sent yet. */
  function Distance(s: State): nat {
    if s.app.timer == Got(Resume) || s.app.timer == Match(Resume) || s.app.timer == Resuming then 0
    else if Verdict(s.app.flags, s.outbox.InFlight()).Some? then 1
    else 2
  }

  /** What has to happen next for a sleeping worker that may wake up. */
  function Hopeful(s: State): Step {
    if s.app.timer != Idle || s.outbox.channel.Some? then TimerStep
    else if s.outbox.queue != [] then Poll
    else ClientResume
  }

  lemma {:induction false} HopefulStep(s: State)
    requires Inv(s) && Asleep(s.app) && MayWake(s) && ProcessExists(s.task)
    ensures Enabled(s, Hopeful(s)) && ProcessExists(Apply(s, Hopeful(s)).task)
    ensures s.app.timer == Resuming ==> !Asleep(Apply(s, Hopeful(s)).app)
    ensures s.app.timer != Resuming ==> Asleep(Apply(s, Hopeful(s)).app) && MayWake(Apply(s, Hopeful(s)))
  {
    if Hopeful(s) == TimerStep {
      assert TimerEnabled(s);
      if s.app.timer != Resuming { TimerKeepsHope(s); }
    } else if Hopeful(s) == Poll {
      PollKeeps(s.outbox);
    } else {
      assert s.outbox.InFlight() == [] && Apply(s, ClientResume).outbox.InFlight() == [Resume];
    }
  }

  /** The way to a resume is shorter: it is nearer, or fewer messages are in flight, or a message is in the
      channel, or the timer thread is nearer to its end of one. */
  predicate Nearer(t: State, s: State) {
    Distance(t) < Distance(s) ||
    (Distance(t) == Distance(s) &&
     (|t.outbox.InFlight()| < |s.outbox.InFlight()| ||
      (|t.outbox.InFlight()| == |s.outbox.InFlight()| &&
       ((s.outbox.channel.None? && t.outbox.channel.Some?) ||
        (t.outbox.channel == s.outbox.channel && Rank(t.app.timer) < Rank(s.app.timer))))))
  }

  lemma {:induction false} RankFalls(a: App)
    requires Asleep(a) && TimerCanGoOn(a)
    ensures Rank(TimerGoesOn(a).timer) < Rank(a.timer)
  {
  }

  lemma {:induction false} ResumeComes(a: App)
    requires Asleep(a) && TimerCanGoOn(a) && a.timer != Resuming
    requires a.timer == Got(Resume) || a.timer == Match(Resume)
    ensures TimerGoesOn(a).timer == Match(Resume) || TimerGoesOn(a).timer == Resuming
  {
  }

  /** Requests do not change while a sleeping worker may wake up. */
  lemma {:induction false} NothingRequested(a: App, later: bool)
    requires Asleep(a) && TimerCanGoOn(a) && TimerWakes(a, later)
    ensures SameRequests(a.flags, TimerGoesOn(a).flags)
  {
  }

  lemma {:induction false} GoingOnIsNearer(s: State, t: State)
    requires Asleep(s.app) && TimerCanGoOn(s.app) && s.app.timer != Resuming && MayWake(s)
    requires t == s.(app := TimerGoesOn(s.app))
    ensures Nearer(t, s)
  {
    RankFalls(s.app);
    NothingRequested(s.app, LaterWakes(s));
    VerdictSame(s.app.flags, t.app.flags, s.outbox.InFlight());
    if s.app.timer == Got(Resume) || s.app.timer == Match(Resume) {
      ResumeComes(s.app);
    }
  }

  lemma {:induction false} TakingIsNearer(s: State, t: State)
    requires Asleep(s.app) && s.app.timer == Idle && s.outbox.channel.Some? && MayWake(s) && t == TimerNext(s)
    ensures Nearer(t, s)
  {
    var m := s.outbox.channel.value;
    assert s.outbox.InFlight()[0] == m && s.outbox.InFlight()[1..] == t.outbox.InFlight();
    assert t.app.timer == Got(m);
  }

  lemma {:induction false} PollIsNearer(s: State, t: State)
    requires s.app.timer == Idle && s.outbox.channel.None? && s.outbox.queue != []
    requires t == s.(outbox := s.outbox.Poll())
    ensures Nearer(t, s)
  {
    PollKeeps(s.outbox);
  }

  lemma {:induction false} ResumeIsNearer(s: State, t: State)
    requires s.app.timer == Idle && s.outbox == Outbox([], None) && t == DoResume(s)
    ensures Nearer(t, s)
  {
    assert s.outbox.InFlight() == [] && t.outbox.InFlight() == [Resume];
  }

  lemma {:induction false} HopefulIsNearer(s: State, t: State)
    requires Inv(s) && Asleep(s.app) && MayWake(s) && s.app.timer != Resuming
    requires Enabled(s, Hopeful(s)) && t == Apply(s, Hopeful(s))
    ensures Nearer(t, s)
  {
    if s.app.timer != Idle {
      GoingOnIsNearer(s, t);
    } else if Hopeful(s) == TimerStep {
      TakingIsNearer(s, t);
    } else if Hopeful(s) == Poll {
      PollIsNearer(s, t);
    } else {
      ResumeIsNearer(s, t);
    }
  }

  lemma {:induction false} WakeRun(s: State) returns (run: seq<Step>)
    requires Inv(s) && Asleep(s.app) && MayWake(s) && ProcessExists(s.task)
    ensures Legal(s, run) && Die !in run && !Asleep(After(s, run).app)
    decreases Distance(s), |s.outbox.InFlight()|, if s.outbox.channel.None? then 1 else 0, Rank(s.app.timer)
  {
    var step := Hopeful(s);
    HopefulStep(s);
    var next := Apply(s, step);
    StepKeeps(s, step);
    var rest := [];
    if s.app.timer != Resuming {
      HopefulIsNearer(s, next);
      rest := WakeRun(next);
    }
    StepFirst(s, step, rest);
    run := [step] + rest;
  }

  /** The client does not give up on a task whose process has not ended. */
  lemma {:induction false} TaskIsThere(s: State, steps: seq<Step>)
    requires Legal(s, steps) && (s.app.worker.pc != Exited ==> ProcessExists(s.task))
    ensures After(s, steps).app.worker.pc != Exited ==> ProcessExists(After(s, steps).task)
    decreases |steps|
  {
    if steps != [] {
      TaskIsThere(Apply(s, steps[0]), steps[1..]);
    }
  }

  /** The exact condition, over all runs. After any run from the start of the process, a worker that sleeps
      in its signal handler sleeps for good if and only if it holds the mutex, or the timer thread ends, or
      has ended, before it comes to a resume, and the client will send none. */
  lemma {:induction false} AsleepForGoodIff(steps: seq<Step>)
    requires Legal(STARTED, steps) && Asleep(After(STARTED, steps).app)
    ensures AsleepForGood(After(STARTED, steps)) <==> !MayWake(After(STARTED, steps))
  {
    var s := After(STARTED, steps);
    assert Inv(s) by {
      assert Pending(STARTED) == [];
      RunKeeps(STARTED, steps);
    }
    TaskIsThere(STARTED, steps);
    if MayWake(s) {
      var run := WakeRun(s);
    } else {
      forall run | Legal(s, run) && Die !in run ensures Asleep(After(s, run).app) { HopelessStays(s, run); }
    }
  }

  /** The two ends above are such cases. */
  lemma {:induction false} EndsAreForGood(s: State)
    requires Stuck(s.app) || Doomed(s.app)
    ensures Asleep(s.app) && !MayWake(s)
  {
  }

  /* ---------- runs that end so ---------- */

  lemma {:induction false} MaskedSnoc(s: State, run: seq<Step>, step: Step)
    requires Legal(s, run) && Masked(s, run) && Enabled(After(s, run), step)
    requires step == Signal ==> !Exposed(After(s, run).app)
    ensures Legal(s, run + [step]) && Masked(s, run + [step]) && After(s, run + [step]) == Apply(After(s, run), step)
    decreases |run|
  {
    if run == [] {
      assert run + [step] == [step] && [step][1..] == [];
    } else {
      MaskedSnoc(Apply(s, run[0]), run[1..], step);
      assert (run + [step])[1..] == run[1..] + [step];
    }
  }

  /** The run leads from the start of the process to s, and no signal comes where it would stick. */
  ghost predicate Reaches(run: seq<Step>, s: State) {
    Legal(STARTED, run) && Die !in run && Masked(STARTED, run) && s == After(STARTED, run)
  }

  lemma {:induction false} GoOn(run: seq<Step>, s: State, step: Step) returns (run': seq<Step>, s': State)
    requires Reaches(run, s) && Enabled(s, step) && step != Die && (step == Signal ==> !Exposed(s.app))
    ensures Reaches(run', s') && s' == Apply(s, step)
  {
    MaskedSnoc(STARTED, run, step);
    run', s' := run + [step], Apply(s, step);
  }

  /** The timer thread takes a suspend outside critical sections. */
  lemma {:induction false} SuspendTaken() returns (run: seq<Step>, s: State)
    ensures Reaches(run, s)
    ensures s == STARTED.(task := TaskState.Suspended,
                          app := STARTED.app.(timer := Suspended2, mutex := Timer,
                                              flags := NO_FLAGS.(suspended := true)))
  {
    run, s := [], STARTED;
    run, s := GoOn(run, s, ClientSuspend);
    run, s := GoOn(run, s, TimerStep);
    run, s := GoOn(run, s, TimerStep);
    run, s := GoOn(run, s, TimerStep);
    assert s.app.timer == Suspending;
    run, s := GoOn(run, s, TimerStep);
  }

  /** There is no request to quit or abort. */
  lemma {:induction false} NothingToQuit(run0: seq<Step>, s0: State) returns (run: seq<Step>, s: State)
    requires Reaches(run0, s0) && s0.app.timer == QuitTest(Suspend) && s0.app.worker.pc == Run
    requires s0.app.flags == NO_FLAGS.(suspended := true)
    ensures Reaches(run, s) && s == s0.(app := s0.app.(timer := Idle, mutex := Nobody))
  {
    run, s := GoOn(run0, s0, TimerStep);
    assert s.app == s0.app.(timer := AbortTest(Suspend));
    run, s := GoOn(run, s, TimerStep);
    assert s.app == s0.app.(timer := Finish);
    run, s := GoOn(run, s, TimerStep);
  }

  /** It is done with it, and no signal has come yet. */
  lemma {:induction false} SuspendDone() returns (run: seq<Step>, s: State)
    ensures Reaches(run, s)
    ensures s == STARTED.(task := TaskState.Suspended, app := STARTED.app.(flags := NO_FLAGS.(suspended := true)))
  {
    run, s := SuspendTaken();
    run, s := GoOn(run, s, TimerStep);
    assert s.app.timer == QuitTest(Suspend);
    run, s := NothingToQuit(run, s);
  }

  /** The signal comes. */
  lemma {:induction false} FallsAsleep() returns (run: seq<Step>, s: State)
    ensures Reaches(run, s) && Asleep(s.app) && s.task == TaskState.Suspended && s.outbox == Outbox([], None)
    ensures s.app == App(Idle, WorkerThread(Run, SleepLoop, 0), Nobody, NO_FLAGS.(suspended := true))
  {
    run, s := SuspendDone();
    run, s := GoOn(run, s, Signal);
    run, s := GoOn(run, s, HandlerStep);
  }

  lemma {:induction false} QuitComesToSleeper() returns (run: seq<Step>, s: State)
    ensures Reaches(run, s) && Asleep(s.app) && s.task == QuitPending
    ensures s.app == App(QuitTest(Quit), WorkerThread(Run, SleepLoop, 0), Timer, NO_FLAGS.(suspended := true))
  {
    run, s := FallsAsleep();
    run, s := GoOn(run, s, RequestExit);
    assert s.outbox.channel == Some(Quit);
    run, s := GoOn(run, s, TimerStep);
    run, s := GoOn(run, s, TimerStep);
    run, s := GoOn(run, s, TimerStep);
  }

  /** A suspended task is removed from memory: its worker sleeps on. */
  lemma {:induction false} SomeQuitDooms() returns (run: seq<Step>, s: State)
    ensures Reaches(run, s) && Doomed(s.app) && !Stuck(s.app) && s.task == QuitPending
  {
    run, s := QuitComesToSleeper();
    run, s := GoOn(run, s, TimerStep);
    assert s.app.timer == QuitDecide(Quit);
    run, s := GoOn(run, s, TimerStep);
    assert s.app.timer == Exiting;
    run, s := GoOn(run, s, TimerStep);
  }

  /** The client dies while a task is suspended: nobody is left to kill the process. */
  lemma {:induction false} SomeDeadClientDooms() returns (run: seq<Step>, s: State)
    ensures Reaches(run, s) && Doomed(s.app) && !Stuck(s.app)
  {
    run, s := FallsAsleep();
    run, s := GoOn(run, s, Heartbeat);
    run, s := GoOn(run, s, TimerStep);
    run, s := GoOn(run, s, TimerStep);
  }

  /** A suspended worker that no signal has stopped yet enters a critical section, and a quit comes. */
  lemma {:induction false} QuitComes() returns (run: seq<Step>, s: State)
    ensures Reaches(run, s) && s.task == QuitPending && s.outbox == Outbox([], None)
    ensures s.app == App(QuitTest(Quit), WorkerThread(Run, NoHandler, 1), Timer, NO_FLAGS.(suspended := true))
  {
    run, s := SuspendDone();
    run, s := GoOn(run, s, WorkerBegin);
    run, s := GoOn(run, s, RequestExit);
    assert s.outbox.channel == Some(Quit);
    run, s := GoOn(run, s, TimerStep);
    run, s := GoOn(run, s, TimerStep);
    run, s := GoOn(run, s, TimerStep);
  }

  /** The timer thread defers it. */
  lemma {:induction false} QuitDeferred() returns (run: seq<Step>, s: State)
    ensures Reaches(run, s) && s.task == QuitPending && s.outbox == Outbox([], None)
    ensures s.app ==
      App(Idle, WorkerThread(Run, NoHandler, 1), Nobody, NO_FLAGS.(suspended := true, quitRequest := true))
  {
    run, s := QuitComes();
    var f := NO_FLAGS.(suspended := true, quitRequest := true);
    run, s := GoOn(run, s, TimerStep);
    assert s.app == App(QuitDecide(Quit), WorkerThread(Run, NoHandler, 1), Timer, f);
    run, s := GoOn(run, s, TimerStep);
    assert s.app == App(AbortTest(Quit), WorkerThread(Run, NoHandler, 1), Timer, f);
    run, s := GoOn(run, s, TimerStep);
    assert s.app == App(Finish, WorkerThread(Run, NoHandler, 1), Timer, f);
    run, s := GoOn(run, s, TimerStep);
  }

  /** The worker leaves the section, and the signal stops it before it looks for the quit. */
  lemma {:induction false} StoppedBeforeTheCheck() returns (run: seq<Step>, s: State)
    ensures Reaches(run, s) && s.task == QuitPending && s.outbox == Outbox([], None)
    ensures s.app ==
      App(Idle, WorkerThread(CheckHeart, SleepLoop, 0), Nobody, NO_FLAGS.(suspended := true, quitRequest := true))
  {
    run, s := QuitDeferred();
    run, s := GoOn(run, s, WorkerEnd);
    run, s := GoOn(run, s, Signal);
    run, s := GoOn(run, s, HandlerStep);
  }

  /** This is a third way to sleep for good. The mutex is free and the timer thread goes on, but it has
      nothing to do. */
  lemma {:induction false} SomeQuitIsSleptThrough() returns (run: seq<Step>, s: State)
    ensures Reaches(run, s) && Asleep(s.app) && !MayWake(s) && !Stuck(s.app) && !Doomed(s.app) && AsleepForGood(s)
  {
    run, s := StoppedBeforeTheCheck();
    assert s.outbox.InFlight() == [];
    AsleepForGoodIff(run);
  }
}
