/** The double buffer between the science thread and the graphics thread (api/graphics_data.cpp). */
module GraphicsData {
  import opened Wrappers

  datatype BufferState = Idle | Generating | Generated | Rendering | Rendered

  /** A buffer's state, and the number of the cycle that it holds or will hold. */
  datatype Buffer = Buffer(state: BufferState, cycle: nat)

  /** The two buffers. Cycles are numbered as the science thread starts them, whether it gets a buffer or
      not: how many were started, which of them got a buffer, and which ones were put on display. */
  datatype Pair = Pair(b1: Buffer, b2: Buffer, started: nat, granted: seq<nat>, shown: seq<nat>)

  /** The calls, each atomic. RenderDone and GenerateDone name the buffer by its position. */
  datatype Call = GetRender | RenderDone(second: bool) | GetGenerate(first: bool) | GenerateDone(second: bool)

  function Get(p: Pair, second: bool): Buffer {
    if second then p.b2 else p.b1
  }

  function Set(p: Pair, second: bool, b: Buffer): Pair {
    if second then p.(b2 := b) else p.(b1 := b)
  }

  /** get_buffer(): the first of the two that is in this state. */
  function Find(p: Pair, s: BufferState): Option<bool> {
    if p.b1.state == s then Some(false) else if p.b2.state == s then Some(true) else None
  }

  /** Callers report a buffer as done only while they have it; a display that lingers may be reported
      again. */
  ghost predicate Can(p: Pair, c: Call) {
    match c
    case RenderDone(b) => Get(p, b).state == Rendering || Get(p, b).state == Rendered
    case GenerateDone(b) => Get(p, b).state == Generating
    case _ => true
  }

  /** Showing the cycle that buffer b holds. */
  function Show(p: Pair, b: bool): Pair {
    Set(p, b, Get(p, b).(state := Rendering)).(shown := p.shown + [Get(p, b).cycle])
  }

  /** The buffer that get_render_buffer() looks at. */
  function RenderChoice(p: Pair): Option<bool> {
    if Find(p, Rendering).Some? then Find(p, Rendering)
    else if Find(p, Rendered).Some? then Find(p, Rendered)
    else Find(p, Generated)
  }

  function ForRenderer(p: Pair): (Pair, Option<bool>) {
    var b := RenderChoice(p);
    if b.None? then (p, None)
    else if Get(p, b.value).state == Rendered then
      var other := Find(p, Generated);
      if other.Some? then (Show(Set(p, b.value, Get(p, b.value).(state := Idle)), other.value), other) else (p, b)
    else if Get(p, b.value).state == Generated then (Show(p, b.value), b)
    else (p, b)
  }

  /** The first call of a cycle gets it a buffer. */
  predicate Grants(p: Pair) {
    Find(p, Generating).None? && Find(p, Idle).Some?
  }

  /** The first call of a cycle counts it, and takes an idle buffer for it if there is one. */
  function ForGenerator(p: Pair, first: bool): (Pair, Option<bool>) {
    var g := Find(p, Generating);
    if !first then (p, g)
    else if !Grants(p) then (p.(started := p.started + 1), g)
    else
      var b := Find(p, Idle);
      (Set(p, b.value, Buffer(Generating, p.started)).(started := p.started + 1, granted := p.granted + [p.started]), b)
  }

  function Next(p: Pair, c: Call): Pair
    requires Can(p, c)
  {
    match c
    case GetRender => ForRenderer(p).0
    case RenderDone(b) => Set(p, b, Get(p, b).(state := Rendered))
    case GetGenerate(first) => ForGenerator(p, first).0
    case GenerateDone(b) => Set(p, b, Get(p, b).(state := Generated))
  }

  /* ---------- the buffer as a queue ---------- */

  predicate OnDisplay(b: Buffer) {
    b.state == Rendering || b.state == Rendered
  }

  /** The cycles that are complete and wait to be shown, oldest first. */
  function Queue(p: Pair): seq<nat> {
    (if p.b1.state == Generated then [p.b1.cycle] else []) + (if p.b2.state == Generated then [p.b2.cycle] else [])
  }

  /** The cycle that is being generated. */
  function Making(p: Pair): seq<nat> {
    if p.b1.state == Generating then [p.b1.cycle] else if p.b2.state == Generating then [p.b2.cycle] else []
  }

  predicate Increasing(s: seq<nat>) {
    forall i, j :: 0 <= i < j < |s| ==> s[i] < s[j]
  }

  ghost predicate Inv(p: Pair) {
    // the threads own different buffers, and at most one each
    !(p.b1.state == Generating && p.b2.state == Generating) && !(OnDisplay(p.b1) && OnDisplay(p.b2)) &&
    // something is on display from the first cycle on, and it is the last one shown
    (p.shown != [] <==> OnDisplay(p.b1) || OnDisplay(p.b2)) &&
    (OnDisplay(p.b1) ==> p.b1.cycle == p.shown[|p.shown| - 1]) &&
    (OnDisplay(p.b2) ==> p.b2.cycle == p.shown[|p.shown| - 1]) &&
    // before anything was shown, the first buffer is filled before the second
    (p.shown == [] && p.b2.state != Idle ==> p.b1.state == Generated) &&
    // the cycles that got a buffer: those shown, those that wait, and the one that is being generated
    p.granted == p.shown + Queue(p) + Making(p) && Numbered(p)
  }

  /** Numbers are given in order. */
  ghost predicate Numbered(p: Pair) {
    Increasing(p.granted) && forall i :: 0 <= i < |p.granted| ==> p.granted[i] < p.started
  }

  /** Each call is one of a queue with two places: completing a cycle puts it at the end, asking for a
      buffer to render may take the first one out and show it, and nothing else moves. */
  lemma {:induction false} RefinesQueue(p: Pair, c: Call)
    requires Inv(p) && Can(p, c)
    ensures var q := Next(p, c);
      match c
      case GenerateDone(_) => Queue(q) == Queue(p) + Making(p) && Making(q) == [] && q.shown == p.shown
      case GetRender =>
        Making(q) == Making(p) &&
        (q == p || (Queue(p) != [] && Queue(q) == Queue(p)[1..] && q.shown == p.shown + [Queue(p)[0]]))
      case GetGenerate(first) =>
        Queue(q) == Queue(p) && q.shown == p.shown &&
        Making(q) == if first && Grants(p) then [p.started] else Making(p)
      case RenderDone(_) => Queue(q) == Queue(p) && Making(q) == Making(p) && q.shown == p.shown
  {
  }

  lemma {:induction false} NextKeeps(p: Pair, c: Call)
    requires Inv(p) && Can(p, c)
    ensures Inv(Next(p, c))
  {
    GrantedIs(p, c);
    NumbersKeep(p, c);
    BuffersKeep(p, c);
  }

  lemma {:induction false} NumbersKeep(p: Pair, c: Call)
    requires Numbered(p) && Can(p, c)
    ensures Numbered(Next(p, c))
  {
    var q := Next(p, c);
    assert q.granted == (if c.GetGenerate? && c.first && Grants(p) then p.granted + [p.started] else p.granted);
    assert q.started >= p.started;
  }

  lemma {:induction false} GrantedIs(p: Pair, c: Call)
    requires Inv(p) && Can(p, c)
    ensures var q := Next(p, c); q.granted == q.shown + Queue(q) + Making(q)
  {
    RefinesQueue(p, c);
    var q := Next(p, c);
    if c.GenerateDone? {
      assert (p.shown + Queue(p)) + Making(p) == p.shown + (Queue(p) + Making(p)) + [];
    } else if q.shown != p.shown {
      assert p.shown + Queue(p) == (p.shown + [Queue(p)[0]]) + Queue(p)[1..];
    } else if c.GetGenerate? && c.first && Grants(p) {
      assert Making(p) == [] && p.granted == p.shown + Queue(p);
    }
  }

  /** Who owns the buffers, and what is on display. */
  lemma {:induction false} BuffersKeep(p: Pair, c: Call)
    requires Inv(p) && Can(p, c)
    ensures var q := Next(p, c);
      !(q.b1.state == Generating && q.b2.state == Generating) && !(OnDisplay(q.b1) && OnDisplay(q.b2)) &&
      (q.shown != [] <==> OnDisplay(q.b1) || OnDisplay(q.b2)) &&
      (OnDisplay(q.b1) ==> q.b1.cycle == q.shown[|q.shown| - 1]) &&
      (OnDisplay(q.b2) ==> q.b2.cycle == q.shown[|q.shown| - 1]) &&
      (q.shown == [] && q.b2.state != Idle ==> q.b1.state == Generated)
  {
    match c
    case GetRender => RendererKeeps(p);
    case GetGenerate(first) =>
    case RenderDone(b) =>
    case GenerateDone(b) =>
  }

  lemma {:induction false} RendererKeeps(p: Pair)
    requires Inv(p)
    ensures var q := ForRenderer(p).0;
      !(q.b1.state == Generating && q.b2.state == Generating) && !(OnDisplay(q.b1) && OnDisplay(q.b2)) &&
      (q.shown != [] <==> OnDisplay(q.b1) || OnDisplay(q.b2)) &&
      (OnDisplay(q.b1) ==> q.b1.cycle == q.shown[|q.shown| - 1]) &&
      (OnDisplay(q.b2) ==> q.b2.cycle == q.shown[|q.shown| - 1]) &&
      (q.shown == [] && q.b2.state != Idle ==> q.b1.state == Generated)
  {
  }

  /** When the threads get a buffer: the generator unless what waits or is on display takes both places,
      the renderer as soon as one cycle is complete; and it moves on exactly when the cycle on display
      was shown in full and the next one is complete. Otherwise the display lingers. */
  lemma {:induction false} WhenServed(p: Pair)
    requires Inv(p)
    ensures var busy := |Queue(p)| + if p.shown != [] then 1 else 0;
      (ForGenerator(p, true).1.Some? <==> busy < 2) && busy <= 2
    ensures ForRenderer(p).1.Some? <==> p.shown != [] || Queue(p) != []
    ensures Next(p, Call.GetRender).shown != p.shown <==>
      Queue(p) != [] && (p.shown == [] || p.b1.state == Rendered || p.b2.state == Rendered)
    ensures ForRenderer(p).1.Some? ==> var q := ForRenderer(p).0; var b := ForRenderer(p).1.value;
      OnDisplay(Get(q, b)) && q.shown != [] && Get(q, b).cycle == q.shown[|q.shown| - 1]
  {
    BuffersKeep(p, Call.GetRender);
  }

  /* ---------- runs ---------- */

  ghost predicate Legal(p: Pair, cs: seq<Call>)
    decreases |cs|
  {
    cs == [] || (Can(p, cs[0]) && Legal(Next(p, cs[0]), cs[1..]))
  }

  ghost function After(p: Pair, cs: seq<Call>): Pair
    requires Legal(p, cs)
    decreases |cs|
  {
    if cs == [] then p else After(Next(p, cs[0]), cs[1..])
  }

  const START := Pair(Buffer(Idle, 0), Buffer(Idle, 0), 0, [], [])

  lemma {:induction false} RunKeeps(p: Pair, cs: seq<Call>)
    requires Inv(p) && Legal(p, cs)
    ensures Inv(After(p, cs)) && p.shown <= After(p, cs).shown
    decreases |cs|
  {
    if cs != [] {
      NextKeeps(p, cs[0]);
      RefinesQueue(p, cs[0]);
      RunKeeps(Next(p, cs[0]), cs[1..]);
    }
  }

  /** From two idle buffers, on every run: no buffer belongs to both threads, cycles are shown in the order
      in which they were started, each at most once, and of those that got a buffer all up to the last one
      shown were shown. At most two complete cycles wait. */
  lemma {:induction false} ShownInOrder(cs: seq<Call>)
    requires Legal(START, cs)
    ensures var p := After(START, cs);
      Increasing(p.shown) && p.shown <= p.granted && |Queue(p)| <= 2 &&
      !(p.b1.state == Generating && p.b2.state == Generating) && !(OnDisplay(p.b1) && OnDisplay(p.b2))
  {
    RunKeeps(START, cs);
    var p := After(START, cs);
    forall i, j | 0 <= i < j < |p.shown| ensures p.shown[i] < p.shown[j] {
      assert p.granted[i] == p.shown[i] && p.granted[j] == p.shown[j];
    }
  }

  /** What a caller does with a buffer that it got: the generator gets the one that holds the cycle being
      generated, if any, and may report that one as complete; the renderer's buffer may be reported as
      shown. */
  lemma {:induction false} HandedOut(p: Pair, first: bool)
    requires Inv(p)
    ensures var (q, b) := ForGenerator(p, first);
      if b.None? then Making(q) == [] else Making(q) == [Get(q, b.value).cycle] && Can(q, GenerateDone(b.value))
    ensures var (q, b) := ForRenderer(p); b.Some? ==> Can(q, RenderDone(b.value))
  {
  }

  /** Since the display last moved on, it was reported as shown in full. This is told by the calls and by
      what was shown alone. */
  ghost predicate Reported(cs: seq<Call>)
    requires Legal(START, cs)
    decreases |cs|
  {
    cs != [] &&
    var n := |cs| - 1;
    LegalFront(cs);
    cs[n].RenderDone? || (After(START, cs).shown == After(START, cs[..n]).shown && Reported(cs[..n]))
  }

  lemma {:induction false} LegalFront(cs: seq<Call>)
    requires Legal(START, cs) && cs != []
    ensures var n := |cs| - 1;
      Legal(START, cs[..n]) && Can(After(START, cs[..n]), cs[n]) &&
      After(START, cs) == Next(After(START, cs[..n]), cs[n])
  {
    var n := |cs| - 1;
    assert cs == cs[..n] + [cs[n]];
    AfterConcat(START, cs[..n], [cs[n]]);
    assert [cs[n]][1..] == [];
  }

  lemma {:induction false} RenderedNext(p: Pair, c: Call)
    requires Inv(p) && Can(p, c) && Next(p, c).shown != []
    ensures var q := Next(p, c);
      q.b1.state == Rendered || q.b2.state == Rendered <==>
      c.RenderDone? || (q.shown == p.shown && (p.b1.state == Rendered || p.b2.state == Rendered))
  {
  }

  lemma {:induction false} ReportedIsRendered(cs: seq<Call>)
    requires Legal(START, cs)
    ensures var p := After(START, cs);
      Inv(p) && (p.shown != [] ==> (Reported(cs) <==> p.b1.state == Rendered || p.b2.state == Rendered))
    decreases |cs|
  {
    RunKeeps(START, cs);
    if cs != [] {
      var n := |cs| - 1;
      LegalFront(cs);
      ReportedIsRendered(cs[..n]);
      if After(START, cs).shown != [] { RenderedNext(After(START, cs[..n]), cs[n]); }
    }
  }

  /** When the display moves on, on every run from two idle buffers: the next call for a buffer to render
      shows the oldest cycle that waits if and only if there is one, and the cycle on display, if any, was
      reported as shown since it was put there. It does not matter whether the one that waits was complete
      before the report or after. Otherwise the display lingers. */
  lemma {:induction false} MovesOnIff(cs: seq<Call>)
    requires Legal(START, cs)
    ensures var p := After(START, cs);
      Next(p, GetRender).shown ==
        p.shown + if Queue(p) != [] && (p.shown == [] || Reported(cs)) then [Queue(p)[0]] else []
  {
    var p := After(START, cs);
    ReportedIsRendered(cs);
    WhenServed(p);
    RefinesQueue(p, GetRender);
  }

  /** Whether a cycle gets a buffer is settled when it is started. */
  lemma {:induction false} GrantedIsSettled(p: Pair, cs: seq<Call>, n: nat)
    requires Legal(p, cs) && n < p.started
    ensures p.started <= After(p, cs).started && (n in After(p, cs).granted <==> n in p.granted)
    decreases |cs|
  {
    if cs != [] {
      GrantedIsSettled(Next(p, cs[0]), cs[1..], n);
    }
  }

  lemma {:induction false} AfterConcat(p: Pair, a: seq<Call>, b: seq<Call>)
    requires Legal(p, a + b)
    ensures Legal(p, a) && Legal(After(p, a), b) && After(p, a + b) == After(After(p, a), b)
    decreases |a|
  {
    if a == [] {
      assert a + b == b;
    } else {
      assert (a + b)[0] == a[0] && (a + b)[1..] == a[1..] + b;
      AfterConcat(Next(p, a[0]), a[1..], b);
    }
  }

  /** Cycle n is on display, was so, waits, or is being generated. */
  ghost predicate Present(p: Pair, n: nat) {
    n in p.shown || n in Queue(p) || n in Making(p)
  }

  /** Cycle n is present if it got a buffer; and then, once a later one is shown, it was shown. */
  ghost predicate PresentIff(p: Pair, n: nat, granted: bool) {
    (Present(p, n) <==> granted) && (p.shown != [] && n < p.shown[|p.shown| - 1] ==> (n in p.shown <==> granted))
  }

  /** Which data cycles are skipped. A cycle that is started somewhere in a run from two idle buffers is
      missing ever after if and only if its first call found no idle buffer (or another cycle still being
      generated). When a later cycle has been shown, it was shown itself or was skipped in this way. */
  lemma {:induction false} MissingIff(before: seq<Call>, after: seq<Call>)
    requires Legal(START, before + ([GetGenerate(true)] + after))
    ensures Legal(START, before)
    ensures var at := After(START, before);
      PresentIff(After(START, before + ([GetGenerate(true)] + after)), at.started, Grants(at))
  {
    var rest := [GetGenerate(true)] + after;
    AfterConcat(START, before, rest);
    RunKeeps(START, before);
    assert rest[0] == GetGenerate(true) && rest[1..] == after;
    MissingFrom(After(START, before), after);
  }

  lemma {:induction false} MissingFrom(at: Pair, after: seq<Call>)
    requires Inv(at) && Legal(Next(at, GetGenerate(true)), after)
    ensures PresentIff(After(Next(at, GetGenerate(true)), after), at.started, Grants(at))
  {
    var next := Next(at, GetGenerate(true));
    assert at.started in next.granted <==> Grants(at) by { FirstCallSettles(at); }
    GrantedIsSettled(next, after, at.started);
    assert Inv(After(next, after)) by {
      NextKeeps(at, GetGenerate(true));
      RunKeeps(next, after);
    }
    PresentIsGranted(After(next, after), at.started);
  }

  lemma {:induction false} FirstCallSettles(at: Pair)
    requires Numbered(at)
    ensures at.started < Next(at, GetGenerate(true)).started
    ensures at.started in Next(at, GetGenerate(true)).granted <==> Grants(at)
  {
  }

  lemma {:induction false} PresentIsGranted(p: Pair, n: nat)
    requires Inv(p)
    ensures Present(p, n) <==> n in p.granted
    ensures p.shown != [] && n < p.shown[|p.shown| - 1] && n in p.granted ==> n in p.shown
  {
    if n in p.granted && p.shown != [] {
      var i :| 0 <= i < |p.granted| && p.granted[i] == n;
      if i < |p.shown| {
        assert p.shown[i] == n;
      } else {
        assert p.granted[|p.shown| - 1] == p.shown[|p.shown| - 1] < n;
      }
    }
  }

  lemma {:induction false} Extend(cs0: seq<Call>, p0: Pair, c: Call) returns (cs: seq<Call>, p: Pair)
    requires Legal(START, cs0) && p0 == After(START, cs0) && Can(p0, c)
    ensures Legal(START, cs) && p == After(START, cs) == Next(p0, c)
  {
    Snoc(START, cs0, c);
    cs, p := cs0 + [c], Next(p0, c);
  }

  lemma {:induction false} Snoc(p: Pair, cs: seq<Call>, c: Call)
    requires Legal(p, cs) && Can(After(p, cs), c)
    ensures Legal(p, cs + [c]) && After(p, cs + [c]) == Next(After(p, cs), c)
    decreases |cs|
  {
    if cs == [] {
      assert cs + [c] == [c] && [c][1..] == [];
    } else {
      Snoc(Next(p, cs[0]), cs[1..], c);
      assert (cs + [c])[1..] == cs[1..] + [c];
    }
  }

  /** Display faster than generation: the first cycle is reported as shown before the second one is
      complete, and then that one is shown. */
  lemma {:induction false} SomeDisplayLingers() returns (cs: seq<Call>)
    ensures Legal(START, cs) && After(START, cs).shown == [0, 1]
  {
    var p;
    cs, p := Extend([], START, GetGenerate(true));
    cs, p := Extend(cs, p, GenerateDone(false));
    cs, p := Extend(cs, p, GetRender);
    cs, p := Extend(cs, p, RenderDone(false));
    cs, p := Extend(cs, p, GetGenerate(true));
    cs, p := Extend(cs, p, GenerateDone(true));
    cs, p := Extend(cs, p, GetRender);
  }

  /** Two complete cycles wait, and the third one finds no buffer. */
  lemma {:induction false} ThirdIsRefused() returns (cs: seq<Call>, p: Pair)
    ensures Legal(START, cs) && p == After(START, cs)
    ensures p == Pair(Buffer(Generated, 0), Buffer(Generated, 1), 3, [0, 1], [])
  {
    cs, p := Extend([], START, GetGenerate(true));
    cs, p := Extend(cs, p, GenerateDone(false));
    cs, p := Extend(cs, p, GetGenerate(true));
    cs, p := Extend(cs, p, GenerateDone(true));
    assert !Grants(p);
    cs, p := Extend(cs, p, GetGenerate(true));
  }

  /** Generation faster than display: cycles 0, 1 and 3 are shown. */
  lemma {:induction false} SomeCycleIsSkipped() returns (cs: seq<Call>)
    ensures Legal(START, cs) && After(START, cs).shown == [0, 1, 3]
  {
    var p;
    cs, p := ThirdIsRefused();
    cs, p := Extend(cs, p, GetRender);
    cs, p := Extend(cs, p, RenderDone(false));
    cs, p := Extend(cs, p, GetRender);
    assert p == Pair(Buffer(Idle, 0), Buffer(Rendering, 1), 3, [0, 1], [0, 1]);
    cs, p := Extend(cs, p, GetGenerate(true));
    cs, p := Extend(cs, p, GenerateDone(false));
    cs, p := Extend(cs, p, RenderDone(true));
    cs, p := Extend(cs, p, GetRender);
  }

  /* ---------- the class ---------- */

  class GraphicsBuffer {
    var state: BufferState
    ghost var cycle: nat

    constructor ()
      ensures state == Idle && cycle == 0
    {
      state, cycle := Idle, 0;
    }
  }

  class GraphicsDoubleBuffer {
    const b1: GraphicsBuffer
    const b2: GraphicsBuffer
    ghost var started: nat
    ghost var granted: seq<nat>
    ghost var shown: seq<nat>

    constructor (b1: GraphicsBuffer, b2: GraphicsBuffer)
      requires b1 != b2 && b1.state == b2.state == Idle && b1.cycle == b2.cycle == 0
      ensures this.b1 == b1 && this.b2 == b2 && Value() == START
    {
      this.b1, this.b2, started, granted, shown := b1, b2, 0, [], [];
    }

    ghost function Value(): Pair
      reads this, b1, b2
    {
      Pair(Buffer(b1.state, b1.cycle), Buffer(b2.state, b2.cycle), started, granted, shown)
    }

    /** A buffer as a result of a call. */
    ghost predicate Is(b: GraphicsBuffer?, which: Option<bool>) {
      match which
      case None => b == null
      case Some(second) => b == if second then b2 else b1
    }

    method GetBuffer(s: BufferState) returns (b: GraphicsBuffer?)
      ensures Is(b, Find(Value(), s))
    {
      if b1.state == s { return b1; }
      if b2.state == s { return b2; }
      return null;
    }

    method GetRenderBuffer() returns (b: GraphicsBuffer?)
      requires b1 != b2
      modifies this, b1, b2
      ensures Value() == Next(old(Value()), Call.GetRender)
      ensures Is(b, ForRenderer(old(Value())).1)
    {
      b := GetBuffer(Rendering);
      if b == null { b := GetBuffer(Rendered); }
      if b == null { b := GetBuffer(Generated); }
      if b != null {
        if b.state == Rendered {
          var other := GetBuffer(Generated);
          if other != null {
            b.state := Idle;
            b := other;
            b.state := Rendering;
            shown := shown + [b.cycle];
          }
        } else {
          if b.state == Generated {
            shown := shown + [b.cycle];
          }
          b.state := Rendering;
        }
      }
    }

    method RenderDone(b: GraphicsBuffer)
      requires b1 != b2 && (b == b1 || b == b2) && Can(Value(), Call.RenderDone(b == b2))
      modifies b
      ensures Value() == Next(old(Value()), Call.RenderDone(b == b2))
    {
      b.state := Rendered;
    }

    method GetGenerateBuffer(first: bool) returns (b: GraphicsBuffer?)
      requires b1 != b2
      modifies this, b1, b2
      ensures Value() == Next(old(Value()), Call.GetGenerate(first))
      ensures Is(b, ForGenerator(old(Value()), first).1)
    {
      b := GetBuffer(Generating);
      if b == null && first {
        b := GetBuffer(Idle);
        if b != null {
          b.state := Generating;
          b.cycle, granted := started, granted + [started];
        }
      }
      if first { started := started + 1; }
    }

    method GenerateDone(b: GraphicsBuffer)
      requires b1 != b2 && (b == b1 || b == b2) && Can(Value(), Call.GenerateDone(b == b2))
      modifies b
      ensures Value() == Next(old(Value()), Call.GenerateDone(b == b2))
    {
      b.state := Generated;
    }
  }
}
