/** What becomes of the messages between client and application (client/app.cpp:953-1019,
    api/boinc_api.cpp:1147-1243): none is lost, invented or put out of order, and a quit or abort that was
    asked for stays asked for. */
module ProcessMessages {
  import opened ProcessControl
  import opened Wrappers

  function Waiting(o: Outbox): seq<Msg> {
    (if o.channel.None? then [] else [o.channel.value]) + o.queue
  }

  /** The messages on their way to the application, oldest first. */
  function OnTheWay(s: State): seq<Msg> {
    Waiting(s.outbox)
  }

  lemma {:induction false} SendWaits(o: Outbox, m: Msg)
    ensures Waiting(o.Send(m)) == Waiting(o) + [m] && (Waiting(o) == [] ==> o.Send(m).channel == Some(m))
  {
  }

  lemma {:induction false} PollWaits(o: Outbox)
    ensures Waiting(o.Poll()) == Waiting(o) && (o.Poll().channel.None? ==> Waiting(o) == [])
  {
  }

  lemma {:induction false} PurgeOrSendWaits(o: Outbox, opposite: Msg, m: Msg)
    ensures var before, after := Waiting(o), Waiting(o.PurgeOrSend(opposite, m)); var n := |before| - 1;
      after == if o.queue != [] && before[n] == opposite then before[..n] else before + [m]
    ensures Waiting(o) == [] ==> o.PurgeOrSend(opposite, m).channel == Some(m)
  {
    if !o.Purgeable(opposite) { SendWaits(o, m); }
  }

  /** What each step does to them. A suspend or resume takes back the newest message instead of adding one
      if that is the opposite one and still in the queue; a poll leaves the channel empty only if nothing
      waits. */
  lemma {:induction false} MessagesMove(s: State, step: Step)
    requires Enabled(s, step)
    ensures var before, after := OnTheWay(s), OnTheWay(Apply(s, step)); var n := |before| - 1;
      match step
      case ClientSuspend =>
        after == if s.outbox.queue != [] && before[n] == Resume then before[..n] else before + [Suspend]
      case ClientResume =>
        after == if s.outbox.queue != [] && before[n] == Suspend then before[..n] else before + [Resume]
      case RequestExit => after == before + [Quit]
      case RequestAbort => after == before + [Abort]
      case SendOther(m) => after == before + [m]
      case Poll => after == before && (Apply(s, step).outbox.channel.None? ==> after == [])
      case Start => after == []
      case TimerStep =>
        if s.app.timer.Idle? then before != [] && Apply(s, step).app.timer == Got(before[0]) && after == before[1..]
        else after == before
      case _ => after == before
    // a message is at once in the channel if nothing is before it
    ensures IsClientStep(step) && OnTheWay(s) == [] && OnTheWay(Apply(s, step)) != [] ==>
      Apply(s, step).outbox.channel.Some?
  {
    match step
    case ClientSuspend => PurgeOrSendWaits(s.outbox, Resume, Suspend);
    case ClientResume => PurgeOrSendWaits(s.outbox, Suspend, Resume);
    case RequestExit => SendWaits(s.outbox, Quit);
    case RequestAbort => SendWaits(s.outbox, Abort);
    case SendOther(m) => SendWaits(s.outbox, m);
    case Poll => PollWaits(s.outbox);
    case _ =>
  }

  /** The client's own record of the task. */
  lemma {:induction false} TaskMoves(s: State, step: Step)
    requires Enabled(s, step)
    ensures var t := Apply(s, step).task;
      match step
      case ClientSuspend => t == TaskState.Suspended
      case ClientResume => t == Executing
      case RequestExit => t == QuitPending
      case RequestAbort => t == AbortPending
      case Start => t == Executing
      case NoticeExit(_) => !ProcessExists(t)
      case _ => t == s.task
  {
  }

  /* ---------- quit and abort ---------- */

  /** Message m is on its way, in the timer thread's hand, or recorded. */
  predicate Requested(s: State, m: Msg) {
    m in OnTheWay(s) || Noted(s.app, m)
  }

  predicate Noted(a: App, m: Msg) {
    InTimer(a.timer, m) || (m == Quit && a.flags.quitRequest) || (m == Abort && a.flags.abortRequest)
  }

  predicate InTimer(t: TimerPc, m: Msg) {
    ((t.Got? || t.Match? || t.QuitTest?) && t.m == m) || ((t.QuitDecide? || t.AbortTest?) && t.m == m == Abort)
  }

  predicate Ending(a: App) {
    a.timer.Exiting? || a.flags.exitFlag || a.worker.pc.Exited?
  }

  lemma {:induction false} OnTheWayStep(s: State, step: Step, m: Msg)
    requires Enabled(s, step) && step != Start && (m == Quit || m == Abort)
    ensures var before, after := OnTheWay(s), OnTheWay(Apply(s, step));
      (m in before ==> m in after || (step.TimerStep? && s.app.timer.Idle? && Apply(s, step).app.timer == Got(m))) &&
      (m in after && m !in before ==> if m == Quit then step.RequestExit? else step.RequestAbort?)
  {
    MessagesMove(s, step);
    var before, after := OnTheWay(s), OnTheWay(Apply(s, step));
    if m in before {
      var i :| 0 <= i < |before| && before[i] == m;
      if i < |after| && after[i] == m {
        assert m in after;
      } else if i > 0 && i - 1 < |after| && after[i - 1] == m {
        assert m in after;
      }
    }
  }

  lemma {:induction false} TimerNotes(a: App, m: Msg)
    requires a.timer != Idle && a.timer != Stopped && (m == Quit || m == Abort)
    ensures Noted(a, m) ==> Noted(TimerGoesOn(a), m) || Ending(TimerGoesOn(a))
    ensures Noted(TimerGoesOn(a), m) ==> Noted(a, m)
    ensures Ending(a) ==> Ending(TimerGoesOn(a))
  {
  }

  lemma {:induction false} WorkerNotes(a: App, step: Step, m: Msg)
    requires WorkerMay(a, step)
    ensures Noted(WorkerDoes(a, step), m) == Noted(a, m) && (Ending(a) ==> Ending(WorkerDoes(a, step)))
  {
  }

  lemma {:induction false} AppNotes(s: State, step: Step, m: Msg, a: App)
    requires Enabled(s, step) && step != Start && (m == Quit || m == Abort) && a == Apply(s, step).app
    ensures Noted(s.app, m) ==> Noted(a, m) || Ending(a)
    ensures Noted(a, m) ==> Noted(s.app, m) || (step.TimerStep? && s.app.timer.Idle? && a.timer == Got(m))
    ensures Ending(s.app) ==> Ending(a)
  {
    if step.TimerStep? && s.app.timer != Idle {
      TimerNotes(s.app, m);
    } else if IsWorkerStep(step) {
      WorkerNotes(s.app, step, m);
    }
  }

  lemma {:induction false} RequestedStep(s: State, step: Step, m: Msg)
    requires Enabled(s, step) && step != Start && (m == Quit || m == Abort)
    ensures Requested(s, m) ==> Requested(Apply(s, step), m) || Ending(Apply(s, step).app)
    ensures Ending(s.app) ==> Ending(Apply(s, step).app)
    ensures !Requested(s, m) && Requested(Apply(s, step), m) ==>
      if m == Quit then step.RequestExit? else step.RequestAbort?
  {
    OnTheWayStep(s, step, m);
    AppNotes(s, step, m, Apply(s, step).app);
    if step.TimerStep? && s.app.timer.Idle? { MessagesMove(s, step); }
  }

  /** A quit or abort that the client asked for stays asked for, whatever comes after it, until the process
      is started again: it is on its way, in hand or recorded, or the process ends. */
  lemma {:induction false} RequestedStays(s: State, steps: seq<Step>, m: Msg)
    requires Legal(s, steps) && Start !in steps && (m == Quit || m == Abort)
    requires Requested(s, m) || Ending(s.app)
    ensures Requested(After(s, steps), m) || Ending(After(s, steps).app)
    decreases |steps|
  {
    if steps != [] {
      assert steps[0] in steps;
      RequestedStep(s, steps[0], m);
      RequestedStays(Apply(s, steps[0]), steps[1..], m);
    }
  }

  /** And nothing is asked for that the client did not ask for. */
  lemma {:induction false} NothingIsInvented(s: State, steps: seq<Step>, m: Msg)
    requires Legal(s, steps) && (m == Quit || m == Abort) && !Requested(s, m)
    requires (if m == Quit then RequestExit else RequestAbort) !in steps
    ensures !Requested(After(s, steps), m)
    decreases |steps|
  {
    if steps != [] {
      assert steps[0] in steps;
      if steps[0] != Start { RequestedStep(s, steps[0], m); }
      NothingIsInvented(Apply(s, steps[0]), steps[1..], m);
    }
  }

  /* ---------- suspend and resume ---------- */

  /** On every interleaving, once no message is on its way and neither the timer thread nor the worker is
      changing anything: the application is suspended or has a suspension deferred if the client has it
      suspended, and neither if the client has it executing. */
  lemma {:induction false} Settled(steps: seq<Step>)
    requires Legal(STARTED, steps)
    ensures var s := After(STARTED, steps); var f := s.app.flags;
      s.app.worker.pc != Exited && s.app.mutex == Nobody && !s.app.timer.Got? && OnTheWay(s) == [] ==>
        (s.task == TaskState.Suspended ==> f.suspended || f.suspendRequest) &&
        (s.task == Executing ==> !f.suspended && !f.suspendRequest)
  {
    SuspendAgreement(steps);
    var s := After(STARTED, steps);
    assert OnTheWay(s) == s.outbox.InFlight();
    assert [] + s.outbox.InFlight() == s.outbox.InFlight();
  }

  /* ---------- handling one message, and recording many ---------- */

  /** What handle_process_control_msg() leaves behind when it acts on the process itself. A suspension waits
      for the end of a critical section, and a resume ends it in either form. The process is ended outside
      critical sections, for a quit or abort that came now or was deferred; the quit goes first. */
  lemma {:induction false} Handled(f: Flags, count: int, m: Msg)
    requires !(f.suspended && f.suspendRequest)
    ensures var g := ApplyExit(ApplyMsg(f, count, m), count, m);
      (if m == Suspend then (if count == 0 then g.suspended && !g.suspendRequest
                             else g.suspendRequest && g.suspended == f.suspended)
       else if m == Resume then !g.suspended && !g.suspendRequest
       else g.suspended == f.suspended && g.suspendRequest == f.suspendRequest) &&
      (g.exitFlag <==> count == 0 && (m == Quit || m == Abort || f.quitRequest || f.abortRequest)) &&
      (g.quitRequest <==> m == Quit || f.quitRequest) &&
      (g.abortRequest <==> f.abortRequest || (m == Abort && !(g.exitFlag && g.quitRequest))) &&
      g.noHeartbeat == f.noHeartbeat
  {
  }

  /** When another program acts on the requests, the messages are recorded one by one. */
  function RecordAll(f: Flags, msgs: seq<Msg>): Flags {
    if msgs == [] then f else Recorded(RecordAll(f, msgs[..|msgs| - 1]), msgs[|msgs| - 1])
  }

  lemma {:induction false} RecordOne(f: Flags, m: Msg)
    ensures var g := Recorded(f, m);
      g.suspended == WantsAfter(f.suspended, m) && (g.quitRequest <==> f.quitRequest || m == Quit) &&
      (g.abortRequest <==> f.abortRequest || m == Abort) &&
      g == f.(suspended := g.suspended, quitRequest := g.quitRequest, abortRequest := g.abortRequest)
  {
  }

  /** Then the newest suspend or resume counts, a quit or abort is recorded if there was one, and nothing
      else is touched. */
  lemma {:induction false} AllRecorded(f: Flags, msgs: seq<Msg>)
    ensures var g := RecordAll(f, msgs);
      g.suspended == Fold(f.suspended, msgs) && (g.quitRequest <==> f.quitRequest || Quit in msgs) &&
      (g.abortRequest <==> f.abortRequest || Abort in msgs) &&
      g == f.(suspended := g.suspended, quitRequest := g.quitRequest, abortRequest := g.abortRequest)
  {
    if msgs != [] {
      var n := |msgs| - 1;
      AllRecorded(f, msgs[..n]);
      assert forall m :: m in msgs <==> m in msgs[..n] || m == msgs[n] by { assert msgs == msgs[..n] + [msgs[n]]; }
      RecordOne(RecordAll(f, msgs[..n]), msgs[n]);
    }
  }

  /** What the fold is: the newest suspend or resume decides, and without one nothing changes. */
  lemma {:induction false} NewestDecides(wants: bool, msgs: seq<Msg>, i: nat)
    requires i < |msgs| && (msgs[i] == Suspend || msgs[i] == Resume)
    requires forall k :: i < k < |msgs| ==> msgs[k] != Suspend && msgs[k] != Resume
    ensures Fold(wants, msgs) == (msgs[i] == Suspend)
    decreases |msgs|
  {
    if i < |msgs| - 1 { NewestDecides(wants, msgs[..|msgs| - 1], i); }
  }

  /* ---------- critical sections ---------- */

  /** How deep the worker's critical sections are nested after these steps. An end without a begin does
      nothing. */
  function Depth(depth: nat, steps: seq<Step>): nat
    decreases |steps|
  {
    if steps == [] then depth else Depth(DepthNext(depth, steps[0]), steps[1..])
  }

  function DepthNext(depth: nat, step: Step): nat {
    match step
    case WorkerBegin => depth + 1
    case WorkerEnd => if depth == 0 then 0 else depth - 1
    case Start => 0
    case _ => depth
  }

  /** The count is the nesting depth whenever the worker is in the application's own code, and the depth is
      0 while it handles deferred requests or sleeps for them. */
  predicate CountsDepth(a: App, depth: nat) {
    a.worker.pc == Exited || (if a.worker.pc == Run then a.worker.count == depth else depth == 0)
  }

  lemma {:induction false} DepthIsCounted(s: State, steps: seq<Step>, depth: nat)
    requires Inv(s) && Legal(s, steps) && CountsDepth(s.app, depth)
    ensures CountsDepth(After(s, steps).app, Depth(depth, steps))
    decreases |steps|
  {
    if steps != [] {
      StepKeeps(s, steps[0]);
      CountStep(s, steps[0], depth);
      DepthIsCounted(Apply(s, steps[0]), steps[1..], DepthNext(depth, steps[0]));
    }
  }

  lemma {:induction false} CountStep(s: State, step: Step, depth: nat)
    requires Inv(s) && Enabled(s, step) && CountsDepth(s.app, depth)
    ensures CountsDepth(Apply(s, step).app, DepthNext(depth, step))
  {
  }

  /* ---------- a dead client ---------- */

  /** The worker knows of the dead client and has not come to the check for that yet. */
  predicate HeartWaits(a: App) {
    a.flags.noHeartbeat && (a.worker.count != 0 || a.worker.pc == CheckHeart)
  }

  /** A worker that is in a critical section when the dead client is recorded never leaves it for the
      application's own code: on every run it is still there, or has exited. */
  lemma {:induction false} DeadClientIsHeeded(s: State, steps: seq<Step>)
    requires Inv(s) && Legal(s, steps) && Start !in steps
    requires s.app.worker.pc == Exited || HeartWaits(s.app)
    ensures After(s, steps).app.worker.pc == Exited || HeartWaits(After(s, steps).app)
    decreases |steps|
  {
    if steps != [] {
      assert steps[0] in steps;
      StepKeeps(s, steps[0]);
      HeartStep(s, steps[0]);
      DeadClientIsHeeded(Apply(s, steps[0]), steps[1..]);
    }
  }

  lemma {:induction false} HeartWorker(a: App, step: Step)
    requires WorkerMay(a, step) && CountInv(a) && HeartWaits(a)
    ensures WorkerDoes(a, step).worker.pc == Exited || HeartWaits(WorkerDoes(a, step))
  {
  }

  lemma {:induction false} HeartStep(s: State, step: Step)
    requires Enabled(s, step) && step != Start
    requires s.app.worker.pc == Exited || (CountInv(s.app) && HeartWaits(s.app))
    ensures Apply(s, step).app.worker.pc == Exited || HeartWaits(Apply(s, step).app)
  {
    if IsWorkerStep(step) {
      HeartWorker(s.app, step);
    } else {
      assert step != Die ==> Apply(s, step).app.worker == s.app.worker;
    }
  }
}
