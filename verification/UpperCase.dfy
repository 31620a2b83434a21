/** Checkpoint and restart of the example application (apps/upper_case.cpp), with the buffered output
    file it writes through (lib/mfile.cpp:122-134, 168-179). */
module UpperCase {
  import opened Wrappers

  function ToUpper(c: char): char {
    if 'a' <= c <= 'z' then (c as int - 32) as char else c
  }

  function Upper(s: string): (u: string)
    ensures |u| == |s| && forall i :: 0 <= i < |s| ==> u[i] == ToUpper(s[i])
  {
    seq(|s|, i requires 0 <= i < |s| => ToUpper(s[i]))
  }

  /* ---------- the machine ---------- */

  /** Where main() is: in its copy loop, or in the loop that burns CPU time after the final flush. */
  datatype Place = Reading | Burning

  /** How far do_checkpoint() has come. */
  datatype Stage = Idle | TempWritten | Flushed

  datatype Process = Down | Up(pos: nat, nchars: nat, buf: string, place: Place, stage: Stage) | Finished

  /** What is on disk: the output, the checkpoint file (which may hold no number) and the temporary
      file; and the process. */
  datatype World = World(inp: string, out: string, checkpoint: Option<Option<nat>>, temp: Option<nat>, proc: Process)

  /** What can happen. The number written to the temporary file may be cut short, because the code does
      not check that write; a flush that a crash interrupts leaves the first k characters written. */
  datatype Event = Start | Copy | WriteTemp(n: Option<nat>) | Flush | Rename | LastFlush | Finish | Crash(k: nat)

  ghost predicate Can(w: World, e: Event) {
    match e
    case Start => w.proc.Down?
    case Crash(_) => w.proc.Up?
    case Copy => w.proc.Up? && w.proc.place == Reading && w.proc.stage == Idle && w.proc.pos < |w.inp|
    case WriteTemp(n) => w.proc.Up? && w.proc.stage == Idle && (n.Some? ==> n.value <= w.proc.nchars)
    case Flush => w.proc.Up? && w.proc.stage == TempWritten
    case Rename => w.proc.Up? && w.proc.stage == Flushed
    case LastFlush => w.proc.Up? && w.proc.place == Reading && w.proc.stage == Idle && w.proc.pos >= |w.inp|
    case Finish => w.proc.Up? && w.proc.place == Burning && w.proc.stage == Idle
  }

  /** A file cut to n characters; a shorter one is padded with zeros. */
  function Truncate(s: string, n: nat): (t: string)
    ensures |t| == n
  {
    if n <= |s| then s[..n] else s + seq(n - |s|, i => '\0')
  }

  /** A flush is going on in do_checkpoint() or at the end of the input. */
  predicate Flushing(w: World)
    requires w.proc.Up?
  {
    w.proc.stage == TempWritten || (w.proc.place == Reading && w.proc.stage == Idle && w.proc.pos >= |w.inp|)
  }

  function Next(w: World, e: Event): World
    requires Can(w, e)
  {
    var p := w.proc;
    match e
    case Start =>
      if w.checkpoint.Some? && w.checkpoint.value.Some? then
        var n := w.checkpoint.value.value;
        w.(out := Truncate(w.out, n), proc := Up(n, n, "", Reading, Idle))
      else
        w.(out := "", proc := Up(0, 0, "", Reading, Idle))
    case Crash(k) =>
      if Flushing(w) then w.(out := w.out + p.buf[..if k <= |p.buf| then k else |p.buf|], proc := Down)
      else w.(proc := Down)
    case Copy => w.(proc := p.(pos := p.pos + 1, nchars := p.nchars + 1, buf := p.buf + [ToUpper(w.inp[p.pos])]))
    case WriteTemp(n) => w.(temp := n, proc := p.(stage := TempWritten))
    case Flush => w.(out := w.out + p.buf, proc := p.(buf := "", stage := Flushed))
    case Rename => w.(checkpoint := Some(w.temp), temp := None, proc := p.(stage := Idle))
    case LastFlush => w.(out := w.out + p.buf, proc := p.(buf := "", place := Burning))
    case Finish => w.(proc := Finished)
  }

  ghost predicate Legal(w: World, es: seq<Event>)
    decreases |es|
  {
    es == [] || (Can(w, es[0]) && Legal(Next(w, es[0]), es[1..]))
  }

  ghost function After(w: World, es: seq<Event>): World
    requires Legal(w, es)
    decreases |es|
  {
    if es == [] then w else After(Next(w, es[0]), es[1..])
  }

  /* ---------- crash consistency ---------- */

  /** What the checkpoint file promises about the output file. */
  ghost predicate Consistent(w: World) {
    w.checkpoint.Some? && w.checkpoint.value.Some? ==>
      var n := w.checkpoint.value.value;
      n <= |w.inp| && n <= |w.out| && w.out[..n] == Upper(w.inp)[..n]
  }

  ghost predicate Inv(w: World) {
    Consistent(w) &&
    match w.proc
    case Down => true
    case Finished => w.out == Upper(w.inp)
    case Up(pos, nchars, buf, place, stage) =>
      pos == nchars <= |w.inp| && w.out + buf == Upper(w.inp)[..nchars] &&
      (place == Burning ==> nchars == |w.inp| && buf == "") &&
      (stage == Flushed ==> buf == "") &&
      (stage != Idle && w.temp.Some? ==> w.temp.value <= nchars)
  }

  lemma {:induction false} NextKeeps(w: World, e: Event)
    requires Inv(w) && Can(w, e)
    ensures Inv(Next(w, e))
  {
    var u := Upper(w.inp);
    var v := Next(w, e);
    match e
    case Start =>
    case Crash(k) =>
      if Flushing(w) {
        var p := w.proc.buf[..if k <= |w.proc.buf| then k else |w.proc.buf|];
        assert v.out == w.out + p;
        if w.checkpoint.Some? && w.checkpoint.value.Some? {
          var n := w.checkpoint.value.value;
          assert v.out[..n] == w.out[..n];
        }
      }
    case Copy =>
      var n := w.proc.nchars;
      assert u[..n + 1] == u[..n] + [u[n]];
      assert v.out + v.proc.buf == (w.out + w.proc.buf) + [u[n]];
    case WriteTemp(_) =>
    case Flush => ExtendKeeps(w, v);
    case Rename =>
      if w.temp.Some? {
        var n := w.temp.value;
        assert w.out == w.out + "";
        assert w.out[..n] == u[..w.proc.nchars][..n] == u[..n];
      }
    case LastFlush =>
      ExtendKeeps(w, v);
      assert u[..|u|] == u;
    case Finish =>
      assert w.out + "" == w.out && u[..|u|] == u;
  }

  lemma {:induction false} ExtendKeeps(w: World, v: World)
    requires Inv(w) && w.proc.Up? && v.inp == w.inp && v.checkpoint == w.checkpoint && v.out == w.out + w.proc.buf
    ensures Consistent(v) && v.out + "" == Upper(w.inp)[..w.proc.nchars]
  {
    if w.checkpoint.Some? && w.checkpoint.value.Some? {
      var n := w.checkpoint.value.value;
      assert v.out[..n] == w.out[..n];
    }
  }

  /** The invariant over every run, with any number of crashes at any step. */
  lemma {:induction false} RunKeeps(w: World, es: seq<Event>)
    requires Inv(w) && Legal(w, es)
    ensures Inv(After(w, es))
    decreases |es|
  {
    if es != [] {
      NextKeeps(w, es[0]);
      RunKeeps(Next(w, es[0]), es[1..]);
    }
  }

  lemma {:induction false} InputStays(w: World, es: seq<Event>)
    requires Legal(w, es)
    ensures After(w, es).inp == w.inp
    decreases |es|
  {
    if es != [] { InputStays(Next(w, es[0]), es[1..]); }
  }

  /** The letters 'a' to 'z' become the capitals at the same places of the alphabet, and nothing else
      changes; so none of those letters is left. */
  ghost predicate Capitals(inp: string, out: string) {
    |out| == |inp| && forall i :: 0 <= i < |inp| ==>
      !('a' <= out[i] <= 'z') &&
      if 'a' <= inp[i] <= 'z' then out[i] as int - 'A' as int == inp[i] as int - 'a' as int else out[i] == inp[i]
  }

  lemma {:induction false} UpperIsCapitals(inp: string)
    ensures Capitals(inp, Upper(inp))
  {
    var out := Upper(inp);
    assert forall i :: 0 <= i < |inp| ==> out[i] == ToUpper(inp[i]);
  }

  /** Whatever output and temporary file were lying around: a run from a state without a checkpoint that
      finishes leaves exactly the input in capitals, character by character, however often it crashed on
      the way. */
  lemma {:induction false} CompletedIsUpper(inp: string, out: string, temp: Option<nat>, es: seq<Event>)
    requires Legal(World(inp, out, None, temp, Down), es)
    requires After(World(inp, out, None, temp, Down), es).proc.Finished?
    ensures var end := After(World(inp, out, None, temp, Down), es).out;
      |end| == |inp| && forall i :: 0 <= i < |inp| ==>
        !('a' <= end[i] <= 'z') &&
        if 'a' <= inp[i] <= 'z' then end[i] as int - 'A' as int == inp[i] as int - 'a' as int else end[i] == inp[i]
  {
    var w := World(inp, out, None, temp, Down);
    RunKeeps(w, es);
    InputStays(w, es);
    UpperIsCapitals(inp);
  }

  /** The count in the checkpoint file; 0 if there is none. */
  ghost function Saved(w: World): nat {
    if w.checkpoint.Some? && w.checkpoint.value.Some? then w.checkpoint.value.value else 0
  }

  /** A crash at any step costs at most the work since the last checkpoint: the restarted process has
      exactly the saved part of the output and reads on behind it. */
  lemma {:induction false} CrashKeepsCheckpoint(w: World, k: nat)
    requires Inv(w) && w.proc.Up?
    ensures var r := Next(Next(w, Crash(k)), Start);
      r.proc.pos == r.proc.nchars == Saved(w) && r.out == Upper(w.inp)[..Saved(w)] && Inv(r)
  {
    NextKeeps(w, Crash(k));
    NextKeeps(Next(w, Crash(k)), Start);
    var r := Next(Next(w, Crash(k)), Start);
    assert r.out + "" == r.out;
  }

  /** From every state a process that is up can finish: it is never stuck. */
  lemma {:induction false} CanFinish(w: World) returns (es: seq<Event>)
    requires Inv(w) && w.proc.Up?
    ensures Legal(w, es) && After(w, es).proc.Finished?
    decreases if w.proc.place == Reading then 1 else 0,
      |w.inp| - w.proc.pos,
      match w.proc.stage case TempWritten => 2 case Flushed => 1 case Idle => 0
  {
    var p := w.proc;
    var e := match p.stage
      case TempWritten => Flush
      case Flushed => Rename
      case Idle =>
        if p.place == Burning then Finish else if p.pos < |w.inp| then Copy else LastFlush;
    NextKeeps(w, e);
    var v := Next(w, e);
    if e == Finish {
      es := [e];
      assert es[1..] == [];
    } else {
      var rest := CanFinish(v);
      es := [e] + rest;
      assert es[1..] == rest;
    }
  }

  /* ---------- the program ---------- */

  lemma {:induction false} AfterSnoc(w: World, es: seq<Event>, e: Event)
    requires Legal(w, es) && Can(After(w, es), e)
    ensures Legal(w, es + [e]) && After(w, es + [e]) == Next(After(w, es), e)
    decreases |es|
  {
    if es == [] {
      assert (es + [e])[1..] == [];
    } else {
      AfterSnoc(Next(w, es[0]), es[1..], e);
      assert (es + [e])[1..] == es[1..] + [e];
    }
  }

  lemma {:induction false} AfterConcat(w: World, a: seq<Event>, b: seq<Event>)
    requires Legal(w, a) && Legal(After(w, a), b)
    ensures Legal(w, a + b) && After(w, a + b) == After(After(w, a), b)
    decreases |a|
  {
    if a == [] {
      assert a + b == b;
    } else {
      AfterConcat(Next(w, a[0]), a[1..], b);
      assert (a + b)[1..] == a[1..] + b;
    }
  }

  /** Where a checkpoint is cut off, if it is. */
  datatype Fault = NoFault | AfterTemp | InFlush(k: nat) | AfterFlush

  /** What reaches the temporary file: the count, or what a write that is cut short leaves of it. */
  datatype Written = Whole | Cut(n: Option<nat>)

  /** What happens after a character was written or a round of the burning loop: nothing, a checkpoint, or
      the end of the process. */
  datatype Turn = GoOn | Checkpoint(written: Written, fault: Fault) | Die

  /** One execution: what happens after each character and in each round of the burning loop, and how
      much the final flush writes if it is cut off. */
  datatype Plan = Plan(turns: seq<Turn>, lastFlush: Option<nat>, rounds: seq<Turn>)

  predicate Harmless(t: Turn) {
    t.GoOn? || (t.Checkpoint? && t.fault.NoFault?)
  }

  /** An execution that nothing cuts off. */
  predicate Clean(plan: Plan) {
    plan.lastFlush.None? && (forall t :: t in plan.turns ==> Harmless(t)) &&
    forall t :: t in plan.rounds ==> Harmless(t)
  }

  class Application {
    const inp: string
    var out: string
    var checkpoint: Option<Option<nat>>
    var temp: Option<nat>
    var proc: Process

    constructor (inp: string, out: string, temp: Option<nat>)
      ensures this.inp == inp && State() == World(inp, out, None, temp, Down)
    {
      this.inp, this.out, this.checkpoint, this.temp, this.proc := inp, out, None, temp, Down;
    }

    ghost function State(): World
      reads this
    {
      World(inp, out, checkpoint, temp, proc)
    }

    /** Opening the files: a checkpoint with a number decides where to go on. */
    method Open()
      requires proc.Down?
      modifies this
      ensures State() == Next(old(State()), Start) && proc.Up?
    {
      var nchars := 0;
      if checkpoint.Some? && checkpoint.value.Some? {
        nchars := checkpoint.value.value;
        out := Truncate(out, nchars);
      } else {
        out := "";
      }
      proc := Up(nchars, nchars, "", Reading, Idle);
    }

    method Crash(k: nat)
      requires proc.Up?
      modifies this
      ensures State() == Next(old(State()), Event.Crash(k))
    {
      if Flushing(World(inp, out, checkpoint, temp, proc)) {
        out := out + proc.buf[..if k <= |proc.buf| then k else |proc.buf|];
      }
      proc := Down;
    }

    /** do_checkpoint(): the count goes to a temporary file, the buffer is flushed, and the temporary file
        becomes the checkpoint file. */
    method DoCheckpoint(n: Option<nat>, fault: Fault) returns (ghost es: seq<Event>)
      requires proc.Up? && proc.stage == Idle && (n.Some? ==> n.value <= proc.nchars)
      modifies this
      ensures Legal(old(State()), es) && State() == After(old(State()), es)
      ensures if fault.NoFault? then
          proc == old(proc).(buf := "") && checkpoint == Some(n) && out == old(out + proc.buf)
        else proc.Down?
    {
      ghost var w := State();
      es := [];
      temp := n;
      proc := proc.(stage := TempWritten);
      AfterSnoc(w, es, WriteTemp(n));
      es := es + [WriteTemp(n)];
      if fault.AfterTemp? || fault.InFlush? {
        var k := if fault.InFlush? then fault.k else 0;
        AfterSnoc(w, es, Event.Crash(k));
        es := es + [Event.Crash(k)];
        Crash(k);
        return;
      }
      out := out + proc.buf;
      proc := proc.(buf := "", stage := Flushed);
      AfterSnoc(w, es, Flush);
      es := es + [Flush];
      if fault.AfterFlush? {
        AfterSnoc(w, es, Event.Crash(0));
        es := es + [Event.Crash(0)];
        Crash(0);
        return;
      }
      checkpoint, temp := Some(temp), None;
      proc := proc.(stage := Idle);
      AfterSnoc(w, es, Rename);
      es := es + [Rename];
    }

    /** What happens between two characters, or between two rounds of the burning loop. */
    method TakeTurn(turn: Turn) returns (ghost es: seq<Event>)
      requires proc.Up? && proc.stage == Idle
      modifies this
      ensures Legal(old(State()), es) && State() == After(old(State()), es)
      ensures proc.Down? || (proc.Up? && proc == old(proc).(buf := proc.buf))
      ensures Harmless(turn) ==> proc.Up?
      // a checkpoint that nothing cuts off saves all the work done so far
      ensures turn.Checkpoint? && turn.written.Whole? && turn.fault.NoFault? ==>
        checkpoint == Some(Some(old(proc.nchars))) && proc.buf == "" && out == old(out + proc.buf)
    {
      match turn
      case GoOn =>
        es := [];
      case Checkpoint(Whole, fault) =>
        es := DoCheckpoint(Some(proc.nchars), fault);
      case Checkpoint(Cut(n), fault) =>
        es := DoCheckpoint(if n.Some? && n.value > proc.nchars then Some(proc.nchars) else n, fault);
      case Die =>
        es := [Event.Crash(0)];
        assert es[1..] == [];
        Crash(0);
    }

    /** One character is read, converted and written. */
    method CopyNext(turn: Turn) returns (ghost es: seq<Event>)
      requires proc.Up? && proc.place == Reading && proc.stage == Idle && proc.pos < |inp|
      modifies this
      ensures Legal(old(State()), es) && State() == After(old(State()), es)
      ensures proc.Down? ||
        (proc.Up? && proc.place == Reading && proc.stage == Idle && proc.pos == old(proc.pos) + 1)
      ensures Harmless(turn) ==> proc.Up?
    {
      ghost var w := State();
      AfterSnoc(w, [], Copy);
      proc := proc.(buf := proc.buf + [ToUpper(inp[proc.pos])], pos := proc.pos + 1, nchars := proc.nchars + 1);
      ghost var more := TakeTurn(turn);
      AfterConcat(w, [] + [Copy], more);
      es := ([] + [Copy]) + more;
    }

    /** The copy loop. */
    method CopyInput(turns: seq<Turn>) returns (ghost es: seq<Event>)
      requires Inv(State()) && proc.Up? && proc.place == Reading && proc.stage == Idle
      modifies this
      ensures Legal(old(State()), es) && State() == After(old(State()), es)
      ensures proc.Down? || (proc.Up? && proc.place == Reading && proc.stage == Idle && proc.pos >= |inp|)
      ensures (forall t :: t in turns ==> Harmless(t)) ==> proc.Up?
    {
      ghost var w := State();
      es := [];
      var i := 0;
      while proc.Up? && proc.pos < |inp|
        invariant Legal(w, es) && State() == After(w, es)
        invariant proc.Down? || (proc.Up? && proc.place == Reading && proc.stage == Idle)
        invariant (forall t :: t in turns ==> Harmless(t)) ==> proc.Up?
        decreases if proc.Up? then 1 + |inp| - proc.pos else 0
      {
        ghost var more := CopyNext(if i < |turns| then turns[i] else GoOn);
        AfterConcat(w, es, more);
        es := es + more;
        i := i + 1;
      }
    }

    /** The loop that burns CPU time. */
    method Burn(rounds: seq<Turn>) returns (ghost es: seq<Event>)
      requires proc.Up? && proc.place == Burning && proc.stage == Idle
      modifies this
      ensures Legal(old(State()), es) && State() == After(old(State()), es)
      ensures proc.Down? || (proc.Up? && proc.place == Burning && proc.stage == Idle)
      ensures (forall t :: t in rounds ==> Harmless(t)) ==> proc.Up?
    {
      ghost var w := State();
      es := [];
      var i := 0;
      while proc.Up? && i < |rounds|
        invariant Legal(w, es) && State() == After(w, es)
        invariant proc.Down? || (proc.Up? && proc.place == Burning && proc.stage == Idle)
        invariant (forall t :: t in rounds ==> Harmless(t)) ==> proc.Up?
        decreases |rounds| - i
      {
        ghost var more := TakeTurn(rounds[i]);
        AfterConcat(w, es, more);
        es := es + more;
        i := i + 1;
      }
    }

    /** main(): open, copy, flush, burn, finish; it ends early when the process dies. */
    method Execute(plan: Plan) returns (ghost es: seq<Event>)
      requires Inv(State()) && proc.Down?
      modifies this
      ensures Legal(old(State()), es) && State() == After(old(State()), es)
      ensures proc.Down? || proc.Finished?
      ensures Clean(plan) ==> proc.Finished?
    {
      ghost var w := State();
      es := [Start];
      assert es[1..] == [];
      NextKeeps(w, Start);
      Open();
      ghost var more := CopyInput(plan.turns);
      AfterConcat(w, es, more);
      es := es + more;
      if proc.Down? {
        return;
      }
      if plan.lastFlush.Some? {
        AfterSnoc(w, es, Event.Crash(plan.lastFlush.value));
        es := es + [Event.Crash(plan.lastFlush.value)];
        Crash(plan.lastFlush.value);
        return;
      }
      AfterSnoc(w, es, LastFlush);
      es := es + [LastFlush];
      out := out + proc.buf;
      proc := proc.(buf := "", place := Burning);
      more := Burn(plan.rounds);
      AfterConcat(w, es, more);
      es := es + more;
      if proc.Up? {
        AfterSnoc(w, es, Finish);
        es := es + [Finish];
        proc := Finished;
      }
    }

    /** The client starts the application again until an execution finishes, whatever cuts the others
        off. */
    method RunToCompletion(plans: seq<Plan>) returns (finished: bool)
      requires Inv(State()) && proc.Down?
      modifies this
      ensures Inv(State()) && (finished <==> proc.Finished?)
      ensures finished ==> Capitals(inp, out)
      ensures (exists j :: 0 <= j < |plans| && Clean(plans[j])) ==> finished
    {
      finished := false;
      var i := 0;
      while i < |plans| && !finished
        invariant Inv(State()) && (finished <==> proc.Finished?) && (finished || proc.Down?)
        invariant i <= |plans| && (finished || forall j :: 0 <= j < i ==> !Clean(plans[j]))
      {
        ghost var w := State();
        ghost var es := Execute(plans[i]);
        RunKeeps(w, es);
        finished := proc.Finished?;
        i := i + 1;
      }
      UpperIsCapitals(inp);
    }
  }
}
