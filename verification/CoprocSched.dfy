/** Assignment of GPU instances to a priority-ordered job list (client/coproc_sched.cpp).

    The value level (Ledger, Job, Run) says what the allocator computes; the theorems are about
    it.  The class level at the end follows the source's in-place code and is proved equal to Run. */
module CoprocSched {
  import Sequences
  import opened Wrappers

  const MAX_COPROC_INSTANCES := 64

  /** A job uses a whole number of instances or a proper fraction of one. */
  predicate ValidUsage(u: real) {
    0.0 < u < 1.0 || (1.0 <= u && u == u.Floor as real)
  }

  function NumInstances(u: real): nat
    requires ValidUsage(u)
  {
    if u < 1.0 then 1 else u.Floor
  }

  /** What a job charges to each instance it holds. */
  function Share(u: real): real {
    if u < 1.0 then u else 1.0
  }

  /** One GPU type: per instance, the usage assigned so far and the usage reserved for running jobs. */
  datatype Ledger = Ledger(usage: seq<real>, pending: seq<real>) {
    predicate Valid(count: nat) {
      |usage| == count && |pending| == count
    }
  }

  /** `rt` is the resource type (0 is the CPU); `usable` is the set of instances the job may use. */
  datatype Job = Job(rt: nat, usage: real, running: bool, usable: set<nat>, indices: seq<nat>)

  /** A placement a job can hold: the right number of distinct instances, all in range. */
  ghost predicate ValidPlacement(count: nat, usage: real, indices: seq<nat>) {
    ValidUsage(usage) && |indices| == NumInstances(usage) && Sequences.Distinct(indices) &&
    forall j :: j in indices ==> j < count
  }

  ghost predicate ValidJob(counts: seq<nat>, job: Job) {
    job.rt != 0 ==>
      job.rt < |counts| && ValidUsage(job.usage) &&
      (job.running ==> ValidPlacement(counts[job.rt], job.usage, job.indices))
  }

  ghost predicate ValidJobs(counts: seq<nat>, jobs: seq<Job>) {
    forall k :: 0 <= k < |jobs| ==> ValidJob(counts, jobs[k])
  }

  /* ---------- scans over the instances ---------- */

  /** The first i in [lo, hi) with p(i). */
  function FirstFrom(lo: nat, hi: nat, p: nat -> bool): (r: Option<nat>)
    requires lo <= hi
    ensures r.Some? ==> lo <= r.value < hi && p(r.value) && forall k :: lo <= k < r.value ==> !p(k)
    ensures r.None? ==> forall k :: lo <= k < hi ==> !p(k)
    decreases hi - lo
  {
    if lo == hi then None else if p(lo) then Some(lo) else FirstFrom(lo + 1, hi, p)
  }

  /** All i below n with p(i), in increasing order. */
  function Below(n: nat, p: nat -> bool): (r: seq<nat>)
    ensures forall i: nat :: i in r <==> i < n && p(i)
    ensures forall a, b :: 0 <= a < b < |r| ==> r[a] < r[b]
  {
    if n == 0 then []
    else
      var front := Below(n - 1, p);
      assert forall a :: 0 <= a < |front| ==> front[a] in front;
      if p(n - 1) then front + [n - 1] else front
  }

  ghost function SetBelow(n: nat, p: nat -> bool): set<nat> {
    set i: nat | i < n && p(i)
  }

  ghost function Elements(s: seq<nat>): set<nat> {
    set x | x in s
  }

  lemma {:induction false} DistinctCard(s: seq<nat>)
    requires Sequences.Distinct(s)
    ensures |Elements(s)| == |s|
  {
    if s != [] {
      DistinctCard(s[1..]);
      assert Elements(s) == Elements(s[1..]) + {s[0]};
    }
  }

  lemma {:induction false} BelowCard(n: nat, p: nat -> bool)
    ensures |Below(n, p)| == |SetBelow(n, p)|
  {
    DistinctCard(Below(n, p));
    assert Elements(Below(n, p)) == SetBelow(n, p);
  }

  /** A job that may use instance i, and i still has no usage. */
  function Free(l: Ledger, job: Job): nat -> bool {
    (i: nat) => i < |l.usage| && i in job.usable && l.usage[i] == 0.0
  }

  function Idle(l: Ledger, job: Job): nat -> bool {
    (i: nat) => i < |l.usage| && i < |l.pending| && i in job.usable && l.usage[i] == 0.0 && l.pending[i] == 0.0
  }

  function Reserved(l: Ledger, job: Job): nat -> bool {
    (i: nat) => i < |l.usage| && i < |l.pending| && i in job.usable && l.usage[i] == 0.0 && l.pending[i] != 0.0
  }

  /** Instance i is already (or soon) partly used and has room for the job. */
  function Shareable(l: Ledger, job: Job): nat -> bool {
    (i: nat) =>
      i < |l.usage| && i < |l.pending| && i in job.usable &&
      (l.usage[i] != 0.0 || l.pending[i] != 0.0) && l.usage[i] + l.pending[i] + job.usage <= 1.0
  }

  /* ---------- placing one job ---------- */

  predicate Fits(l: Ledger, indices: seq<nat>, x: real) {
    forall j :: j in indices && j < |l.usage| ==> l.usage[j] + x <= 1.0
  }

  function FractionalPick(l: Ledger, job: Job): Option<seq<nat>> {
    match FirstFrom(0, |l.usage|, Shareable(l, job))
    case Some(i) => Some([i])
    case None =>
      match FirstFrom(0, |l.usage|, Free(l, job))
      case Some(i) => Some([i])
      case None => None
  }

  function IntegerPick(l: Ledger, job: Job): Option<seq<nat>>
    requires ValidUsage(job.usage)
  {
    var n := NumInstances(job.usage);
    if |Below(|l.usage|, Free(l, job))| < n || |Candidates(l, job)| < n then None else Some(Candidates(l, job)[..n])
  }

  /** Free instances in the order the two passes take them: unreserved ones first. */
  function Candidates(l: Ledger, job: Job): seq<nat> {
    Below(|l.usage|, Idle(l, job)) + Below(|l.usage|, Reserved(l, job))
  }

  lemma {:induction false} CandidateShape(l: Ledger, job: Job, a: nat)
    requires |l.usage| == |l.pending| && a < |Candidates(l, job)|
    ensures var j := Candidates(l, job)[a];
      Free(l, job)(j) && (l.pending[j] == 0.0 <==> a < |Below(|l.usage|, Idle(l, job))|)
  {
    var idle, reserved := Below(|l.usage|, Idle(l, job)), Below(|l.usage|, Reserved(l, job));
    if a < |idle| {
      assert idle[a] in idle;
    } else {
      assert reserved[a - |idle|] in reserved;
    }
  }

  lemma {:induction false} CandidatesDistinct(l: Ledger, job: Job)
    requires |l.usage| == |l.pending|
    ensures Sequences.Distinct(Candidates(l, job))
  {
    var cs := Candidates(l, job);
    forall a, b | 0 <= a < b < |cs| ensures cs[a] != cs[b] {
      CandidateShape(l, job, a);
      CandidateShape(l, job, b);
    }
  }

  /** The instances the job gets, or None when it is pruned. */
  function Place(l: Ledger, job: Job): Option<seq<nat>>
    requires ValidUsage(job.usage)
  {
    if job.running then
      if Fits(l, job.indices, Share(job.usage)) then Some(job.indices) else None
    else if job.usage < 1.0 then FractionalPick(l, job)
    else IntegerPick(l, job)
  }

  function AddOn(s: seq<real>, indices: seq<nat>, x: real): (r: seq<real>)
    ensures |r| == |s|
    ensures forall j :: 0 <= j < |s| ==> r[j] == s[j] + if j in indices then x else 0.0
  {
    seq(|s|, (j: nat) requires j < |s| => s[j] + if j in indices then x else 0.0)
  }

  function Charge(l: Ledger, job: Job, indices: seq<nat>): Ledger {
    var x := Share(job.usage);
    Ledger(AddOn(l.usage, indices, x), if job.running then AddOn(l.pending, indices, -x) else l.pending)
  }

  /* ---------- the whole list ---------- */

  /** Ledgers of all types, the jobs kept so far (with their instances) and the jobs pruned so far. */
  datatype Sched = Sched(ledgers: seq<Ledger>, kept: seq<Job>, pruned: seq<Job>)

  ghost predicate ValidLedgers(counts: seq<nat>, ls: seq<Ledger>) {
    |ls| == |counts| && forall rt :: 0 <= rt < |ls| ==> ls[rt].Valid(counts[rt])
  }

  /** What one job charges to instance j of type rt. */
  function Part(job: Job, rt: nat, j: nat, onlyRunning: bool): real {
    if job.rt == rt && (onlyRunning ==> job.running) && j in job.indices then Share(job.usage) else 0.0
  }

  /** Total charge that `jobs` put on instance j of type rt. */
  function Load(jobs: seq<Job>, rt: nat, j: nat, onlyRunning: bool): real {
    if jobs == [] then 0.0
    else Load(jobs[..|jobs| - 1], rt, j, onlyRunning) + Part(jobs[|jobs| - 1], rt, j, onlyRunning)
  }

  /** No usage yet; pending usage is what the running jobs hold. */
  function Initial(counts: seq<nat>, jobs: seq<Job>): Sched {
    Sched(
      seq(|counts|, (rt: nat) requires rt < |counts| =>
        Ledger(
          seq(counts[rt], (j: nat) => 0.0),
          seq(counts[rt], (j: nat) => if rt == 0 then 0.0 else Load(jobs, rt, j, true)))),
      [], [])
  }

  function Step(s: Sched, job: Job): Sched
    requires job.rt != 0 ==> job.rt < |s.ledgers| && ValidUsage(job.usage)
  {
    if job.rt == 0 then s.(kept := s.kept + [job])
    else
      match Place(s.ledgers[job.rt], job)
      case None => s.(pruned := s.pruned + [job])
      case Some(idx) =>
        s.(ledgers := s.ledgers[job.rt := Charge(s.ledgers[job.rt], job, idx)],
           kept := s.kept + [job.(indices := idx)])
  }

  function Run(counts: seq<nat>, s: Sched, jobs: seq<Job>): (r: Sched)
    requires ValidJobs(counts, jobs) && |s.ledgers| == |counts|
    ensures |r.ledgers| == |counts|
  {
    if jobs == [] then s else Step(Run(counts, s, jobs[..|jobs| - 1]), jobs[|jobs| - 1])
  }

  /** The state after the first k jobs. */
  function After(counts: seq<nat>, jobs: seq<Job>, k: nat): Sched
    requires ValidJobs(counts, jobs) && k <= |jobs|
  {
    Run(counts, Initial(counts, jobs), jobs[..k])
  }

  lemma {:induction false} AfterNext(counts: seq<nat>, jobs: seq<Job>, k: nat)
    requires ValidJobs(counts, jobs) && k < |jobs|
    ensures After(counts, jobs, k + 1) == Step(After(counts, jobs, k), jobs[k])
  {
    assert jobs[..k + 1][..k] == jobs[..k];
  }

  /* ---------- sums ---------- */

  lemma {:induction false} LoadSnoc(jobs: seq<Job>, job: Job, rt: nat, j: nat, onlyRunning: bool)
    ensures Load(jobs + [job], rt, j, onlyRunning) == Load(jobs, rt, j, onlyRunning) + Part(job, rt, j, onlyRunning)
  {
    assert (jobs + [job])[..|jobs|] == jobs;
  }

  lemma {:induction false} LoadHead(jobs: seq<Job>, rt: nat, j: nat, onlyRunning: bool)
    requires jobs != []
    ensures Load(jobs, rt, j, onlyRunning) == Part(jobs[0], rt, j, onlyRunning) + Load(jobs[1..], rt, j, onlyRunning)
  {
    if |jobs| > 1 {
      var front := jobs[..|jobs| - 1];
      LoadHead(front, rt, j, onlyRunning);
      assert front[1..] == jobs[1..][..|jobs| - 2];
    }
  }

  lemma {:induction false} LoadNonNegative(jobs: seq<Job>, rt: nat, j: nat, onlyRunning: bool)
    requires forall job :: job in jobs && job.rt == rt ==> ValidUsage(job.usage)
    ensures Load(jobs, rt, j, onlyRunning) >= 0.0
  {
    if jobs != [] {
      LoadNonNegative(jobs[..|jobs| - 1], rt, j, onlyRunning);
    }
  }

  /* ---------- one placement ---------- */

  /** A placement is valid, and takes only instances that were free or that had room. */
  lemma {:induction false} PlaceIsValid(count: nat, l: Ledger, job: Job)
    requires l.Valid(count) && ValidUsage(job.usage)
    requires job.running ==> ValidPlacement(count, job.usage, job.indices)
    requires Place(l, job).Some?
    ensures var idx := Place(l, job).value;
      ValidPlacement(count, job.usage, idx) &&
      (!job.running ==> forall j :: j in idx ==> j in job.usable) &&
      (job.running ==> idx == job.indices) &&
      forall j :: j in idx ==>
        if job.running then l.usage[j] + Share(job.usage) <= 1.0
        else l.usage[j] == 0.0 || Shareable(l, job)(j)
  {
    if !job.running && job.usage >= 1.0 {
      var cs, idx := Candidates(l, job), Place(l, job).value;
      CandidatesDistinct(l, job);
      forall a | 0 <= a < |idx| ensures Free(l, job)(idx[a]) {
        CandidateShape(l, job, a);
      }
      assert forall j :: j in idx ==> Free(l, job)(j);
    }
  }

  /** Integer placement succeeds exactly when enough usable instances have no usage. */
  lemma {:induction false} IntegerSucceedsIff(l: Ledger, job: Job)
    requires ValidUsage(job.usage) && !job.running && job.usage >= 1.0 && |l.usage| == |l.pending|
    ensures Place(l, job).Some? <==> NumInstances(job.usage) <= |SetBelow(|l.usage|, Free(l, job))|
  {
    FreeCount(l, job);
    BelowCard(|l.usage|, Free(l, job));
  }

  /** It then takes that many distinct free usable instances, and no more of those reserved by
      running jobs than the unreserved ones leave missing. */
  lemma {:induction false} IntegerPlacementExact(l: Ledger, job: Job)
    requires ValidUsage(job.usage) && !job.running && job.usage >= 1.0 && |l.usage| == |l.pending|
    requires Place(l, job).Some?
    ensures var idx := Place(l, job).value;
      var n, idle := NumInstances(job.usage), |SetBelow(|l.usage|, Idle(l, job))|;
      |Elements(idx)| == |idx| == n &&
      (forall j :: j in idx ==> j < |l.usage| && j in job.usable && l.usage[j] == 0.0) &&
      |set j | j in idx && j < |l.pending| && l.pending[j] != 0.0| == if n <= idle then 0 else n - idle
  {
    BelowCard(|l.usage|, Idle(l, job));
    PlaceIsValid(|l.usage|, l, job);
    DistinctCard(Place(l, job).value);
    ReservedTaken(l, job);
    var cs, idx := Candidates(l, job), Place(l, job).value;
    forall a | 0 <= a < |idx| ensures Free(l, job)(idx[a]) {
      CandidateShape(l, job, a);
    }
    assert forall j :: j in idx ==> Free(l, job)(j);
  }

  lemma {:induction false} FreeCount(l: Ledger, job: Job)
    requires |l.usage| == |l.pending|
    ensures |Candidates(l, job)| == |Below(|l.usage|, Free(l, job))|
  {
    var cs, fs := Candidates(l, job), Below(|l.usage|, Free(l, job));
    CandidatesDistinct(l, job);
    DistinctCard(cs);
    DistinctCard(fs);
    forall j | j in fs ensures j in cs {
      if l.pending[j] == 0.0 {
        assert j in Below(|l.usage|, Idle(l, job));
      } else {
        assert j in Below(|l.usage|, Reserved(l, job));
      }
    }
    forall j | j in cs ensures j in fs {
      var a :| 0 <= a < |cs| && cs[a] == j;
      CandidateShape(l, job, a);
    }
    assert Elements(cs) == Elements(fs);
  }

  lemma {:induction false} ReservedTaken(l: Ledger, job: Job)
    requires ValidUsage(job.usage) && !job.running && job.usage >= 1.0 && |l.usage| == |l.pending|
    requires Place(l, job).Some?
    ensures var idx := Place(l, job).value;
      var n, idle := NumInstances(job.usage), |Below(|l.usage|, Idle(l, job))|;
      |set j | j in idx && j < |l.pending| && l.pending[j] != 0.0| == if n <= idle then 0 else n - idle
  {
    var idx, idle := Place(l, job).value, |Below(|l.usage|, Idle(l, job))|;
    var taken := if |idx| <= idle then [] else idx[idle..];
    assert Sequences.Distinct(taken) by { CandidatesDistinct(l, job); }
    DistinctCard(taken);
    forall j: nat ensures j in idx && j < |l.pending| && l.pending[j] != 0.0 <==> j in taken {
      ReservedIff(l, job, idx, idle, taken, j);
    }
    assert (set j | j in idx && j < |l.pending| && l.pending[j] != 0.0) == Elements(taken);
  }

  /** Of the first candidates, those reserved are the ones behind the unreserved ones. */
  lemma {:induction false} ReservedIff(l: Ledger, job: Job, idx: seq<nat>, idle: nat, taken: seq<nat>, j: nat)
    requires |l.usage| == |l.pending| && idx <= Candidates(l, job)
    requires idle == |Below(|l.usage|, Idle(l, job))| && taken == if |idx| <= idle then [] else idx[idle..]
    ensures j in idx && j < |l.pending| && l.pending[j] != 0.0 <==> j in taken
  {
    forall a | 0 <= a < |idx| ensures idx[a] < |l.pending| && (l.pending[idx[a]] == 0.0 <==> a < idle) {
      CandidateShape(l, job, a);
    }
    if j in idx && j < |l.pending| && l.pending[j] != 0.0 {
      var a :| 0 <= a < |idx| && idx[a] == j;
      assert taken[a - idle] == j;
    }
    if j in taken {
      var a :| 0 <= a < |taken| && taken[a] == j;
      assert idx[idle + a] == j;
    }
  }

  /* ---------- exact ledgers ---------- */

  /** Usage is the sum over the kept jobs, pending usage the sum over the running jobs that were
      pruned or not reached yet, and no instance is over capacity. */
  ghost predicate Exact(s: Sched, rest: seq<Job>, rt: nat, j: nat)
    requires rt < |s.ledgers| && j < |s.ledgers[rt].usage| && j < |s.ledgers[rt].pending|
  {
    s.ledgers[rt].usage[j] == Load(s.kept, rt, j, false) &&
    s.ledgers[rt].pending[j] == Load(s.pruned, rt, j, true) + Load(rest, rt, j, true) &&
    s.ledgers[rt].usage[j] <= 1.0
  }

  /** Every job kept so far holds a valid placement, and every pruned one is an unchanged GPU job. */
  ghost predicate ValidSched(counts: seq<nat>, s: Sched) {
    ValidLedgers(counts, s.ledgers) && ValidJobs(counts, s.kept) && ValidJobs(counts, s.pruned) &&
    (forall job :: job in s.kept && job.rt != 0 ==> ValidPlacement(counts[job.rt], job.usage, job.indices)) &&
    (forall job :: job in s.pruned ==> job.rt != 0)
  }

  lemma {:induction false} SchedIsValid(counts: seq<nat>, jobs: seq<Job>, k: nat)
    requires ValidJobs(counts, jobs) && k <= |jobs|
    ensures ValidSched(counts, After(counts, jobs, k))
  {
    if k > 0 {
      SchedIsValid(counts, jobs, k - 1);
      AfterNext(counts, jobs, k - 1);
      StepIsValid(counts, After(counts, jobs, k - 1), jobs[k - 1]);
    }
  }

  lemma {:induction false} StepIsValid(counts: seq<nat>, s: Sched, job: Job)
    requires ValidSched(counts, s) && ValidJob(counts, job)
    ensures ValidSched(counts, Step(s, job))
  {
    if job.rt != 0 && Place(s.ledgers[job.rt], job).Some? {
      var idx := Place(s.ledgers[job.rt], job).value;
      assert ValidPlacement(counts[job.rt], job.usage, idx) by {
        PlaceIsValid(counts[job.rt], s.ledgers[job.rt], job);
      }
      PlacedIsValid(counts, s, job, idx);
    }
  }

  lemma {:induction false} PlacedIsValid(counts: seq<nat>, s: Sched, job: Job, idx: seq<nat>)
    requires ValidSched(counts, s) && job.rt != 0 && ValidJob(counts, job)
    requires ValidPlacement(counts[job.rt], job.usage, idx)
    ensures ValidSched(counts, s.(ledgers := s.ledgers[job.rt := Charge(s.ledgers[job.rt], job, idx)],
                                  kept := s.kept + [job.(indices := idx)]))
  {
  }

  lemma {:induction false} ExactInitial(counts: seq<nat>, jobs: seq<Job>, rt: nat, j: nat)
    requires 0 < rt < |counts| && j < counts[rt]
    ensures Exact(Initial(counts, jobs), jobs, rt, j)
  {
    assert Load([], rt, j, true) == 0.0;
  }

  lemma {:induction false} ExactLedger(counts: seq<nat>, jobs: seq<Job>, k: nat, rt: nat, j: nat)
    requires ValidJobs(counts, jobs) && k <= |jobs| && 0 < rt < |counts| && j < counts[rt]
    ensures ValidLedgers(counts, After(counts, jobs, k).ledgers)
    ensures Exact(After(counts, jobs, k), jobs[k..], rt, j)
  {
    SchedIsValid(counts, jobs, k);
    if k == 0 {
      assert jobs[0..] == jobs && After(counts, jobs, 0) == Initial(counts, jobs);
      ExactInitial(counts, jobs, rt, j);
    } else {
      ExactLedger(counts, jobs, k - 1, rt, j);
      ExactNext(counts, jobs, k - 1, rt, j, After(counts, jobs, k - 1), jobs[k - 1..]);
    }
  }

  lemma {:induction false} ExactNext(counts: seq<nat>, jobs: seq<Job>, k: nat, rt: nat, j: nat, s: Sched,
                                     rest: seq<Job>)
    requires ValidJobs(counts, jobs) && k < |jobs| && 0 < rt < |counts| && j < counts[rt]
    requires s == After(counts, jobs, k) && rest == jobs[k..]
    requires ValidLedgers(counts, s.ledgers) && Exact(s, rest, rt, j)
    ensures ValidLedgers(counts, After(counts, jobs, k + 1).ledgers)
    ensures Exact(After(counts, jobs, k + 1), jobs[k + 1..], rt, j)
  {
    assert After(counts, jobs, k + 1) == Step(s, rest[0]) by { AfterNext(counts, jobs, k); }
    assert rest[1..] == jobs[k + 1..];
    assert ValidSched(counts, s) by { SchedIsValid(counts, jobs, k); }
    assert ValidSched(counts, Step(s, rest[0])) by { SchedIsValid(counts, jobs, k + 1); }
    ExactStep(counts, s, rest, rt, j);
  }

  lemma {:induction false} ExactStep(counts: seq<nat>, s: Sched, rest: seq<Job>, rt: nat, j: nat)
    requires ValidSched(counts, s) && ValidJobs(counts, rest) && rest != [] && 0 < rt < |counts| && j < counts[rt]
    requires Exact(s, rest, rt, j) && ValidSched(counts, Step(s, rest[0]))
    ensures Exact(Step(s, rest[0]), rest[1..], rt, j)
  {
    var job := rest[0];
    LoadHead(rest, rt, j, true);
    if job.rt == 0 {
      LoadSnoc(s.kept, job, rt, j, false);
    } else if Place(s.ledgers[job.rt], job).Some? {
      var idx := Place(s.ledgers[job.rt], job).value;
      assert job.rt == rt && j in idx ==> s.ledgers[rt].usage[j] + Share(job.usage) <= 1.0 by {
        PendingIsNonNegative(counts, s, rest, rt, j);
        PlaceIsValid(counts[job.rt], s.ledgers[job.rt], job);
      }
      assert job.running ==> idx == job.indices;
      LoadSnoc(s.kept, job.(indices := idx), rt, j, false);
    } else {
      LoadSnoc(s.pruned, job, rt, j, true);
    }
  }

  lemma {:induction false} PendingIsNonNegative(counts: seq<nat>, s: Sched, rest: seq<Job>, rt: nat, j: nat)
    requires ValidSched(counts, s) && ValidJobs(counts, rest) && 0 < rt < |counts| && j < counts[rt]
    requires Exact(s, rest, rt, j)
    ensures s.ledgers[rt].pending[j] >= Load(rest, rt, j, true) >= 0.0
    ensures s.ledgers[rt].usage[j] >= 0.0
  {
    LoadNonNegative(s.pruned, rt, j, true);
    LoadNonNegative(rest, rt, j, true);
    LoadNonNegative(s.kept, rt, j, false);
  }

  /* ---------- the output list ---------- */

  /** `kept` is `job`, with new instances only if it is a GPU job that was not running. */
  predicate KeptAs(kept: Job, job: Job) {
    kept == job || (job.rt != 0 && !job.running && kept == job.(indices := kept.indices))
  }

  /** `kept` and `pruned` split `jobs` in order, and only GPU jobs are pruned. */
  ghost predicate Splits(kept: seq<Job>, pruned: seq<Job>, jobs: seq<Job>) {
    if jobs == [] then kept == [] && pruned == []
    else
      var last, front := jobs[|jobs| - 1], jobs[..|jobs| - 1];
      (kept != [] && KeptAs(kept[|kept| - 1], last) && Splits(kept[..|kept| - 1], pruned, front)) ||
      (pruned != [] && pruned[|pruned| - 1] == last && last.rt != 0 && Splits(kept, pruned[..|pruned| - 1], front))
  }

  lemma {:induction false} OutputSplitsInput(counts: seq<nat>, jobs: seq<Job>)
    requires ValidJobs(counts, jobs)
    ensures Splits(After(counts, jobs, |jobs|).kept, After(counts, jobs, |jobs|).pruned, jobs)
  {
    assert jobs[..|jobs|] == jobs;
    RunSplits(counts, Initial(counts, jobs), jobs);
  }

  lemma {:induction false} RunSplits(counts: seq<nat>, s: Sched, jobs: seq<Job>)
    requires ValidJobs(counts, jobs) && |s.ledgers| == |counts| && s.kept == s.pruned == []
    ensures Splits(Run(counts, s, jobs).kept, Run(counts, s, jobs).pruned, jobs)
  {
    if jobs != [] {
      var front, last := jobs[..|jobs| - 1], jobs[|jobs| - 1];
      RunSplits(counts, s, front);
      SplitsStep(Run(counts, s, front), front, last);
      assert front + [last] == jobs;
    }
  }

  lemma {:induction false} SplitsStep(s: Sched, jobs: seq<Job>, job: Job)
    requires job.rt != 0 ==> job.rt < |s.ledgers| && ValidUsage(job.usage)
    requires Splits(s.kept, s.pruned, jobs)
    ensures Splits(Step(s, job).kept, Step(s, job).pruned, jobs + [job])
  {
    var next := Step(s, job);
    assert (jobs + [job])[..|jobs|] == jobs;
    if |next.kept| > |s.kept| {
      assert next.kept[..|s.kept|] == s.kept;
    } else {
      assert next.pruned[..|s.pruned|] == s.pruned;
    }
  }

  /* ---------- maximality ---------- */

  /** The job does not fit in these ledgers. */
  ghost predicate CannotFit(l: Ledger, job: Job)
    requires |l.usage| == |l.pending| && ValidUsage(job.usage)
  {
    if job.running then exists j :: j in job.indices && j < |l.usage| && l.usage[j] + Share(job.usage) > 1.0
    else if job.usage < 1.0 then
      forall i :: i in job.usable && i < |l.usage| ==> l.usage[i] != 0.0 && l.usage[i] + l.pending[i] + job.usage > 1.0
    else |SetBelow(|l.usage|, Free(l, job))| < NumInstances(job.usage)
  }

  /** Usage, and usage plus pending usage, have not decreased. */
  ghost predicate Grows(l: Ledger, m: Ledger) {
    |l.usage| == |m.usage| == |l.pending| == |m.pending| &&
    forall i :: 0 <= i < |l.usage| ==>
      0.0 <= l.usage[i] <= m.usage[i] && l.usage[i] + l.pending[i] <= m.usage[i] + m.pending[i]
  }

  lemma {:induction false} PrunedCannotFit(l: Ledger, job: Job)
    requires |l.usage| == |l.pending| && ValidUsage(job.usage)
    ensures Place(l, job).None? <==> CannotFit(l, job)
  {
    if !job.running && job.usage >= 1.0 {
      IntegerSucceedsIff(l, job);
    } else if !job.running {
      if Place(l, job).None? {
        forall i | i in job.usable && i < |l.usage|
          ensures l.usage[i] != 0.0 && l.usage[i] + l.pending[i] + job.usage > 1.0
        {
          assert !Shareable(l, job)(i) && !Free(l, job)(i);
        }
      } else {
        var i := Place(l, job).value[0];
        assert Shareable(l, job)(i) || Free(l, job)(i);
      }
    }
  }

  lemma {:induction false} CannotFitGrows(l: Ledger, m: Ledger, job: Job)
    requires ValidUsage(job.usage) && Grows(l, m) && CannotFit(l, job)
    ensures CannotFit(m, job)
  {
    if job.running {
      var j :| j in job.indices && j < |l.usage| && l.usage[j] + Share(job.usage) > 1.0;
      assert m.usage[j] + Share(job.usage) > 1.0;
    } else if job.usage >= 1.0 {
      var before, after := SetBelow(|l.usage|, Free(l, job)), SetBelow(|m.usage|, Free(m, job));
      forall i | i in after ensures i in before {
        assert Free(m, job)(i) && 0.0 <= l.usage[i] <= m.usage[i];
      }
      CardMonotone(after, before);
    }
  }

  lemma {:induction false} CardMonotone(a: set<nat>, b: set<nat>)
    requires a <= b
    ensures |a| <= |b|
  {
    assert b == a + (b - a);
  }

  lemma {:induction false} StepGrows(counts: seq<nat>, jobs: seq<Job>, k: nat, rt: nat)
    requires ValidJobs(counts, jobs) && k < |jobs| && 0 < rt < |counts|
    ensures |After(counts, jobs, k).ledgers| == |After(counts, jobs, k + 1).ledgers| == |counts|
    ensures Grows(After(counts, jobs, k).ledgers[rt], After(counts, jobs, k + 1).ledgers[rt])
  {
    SchedIsValid(counts, jobs, k);
    SchedIsValid(counts, jobs, k + 1);
    AfterNext(counts, jobs, k);
    forall j: nat | j < counts[rt] ensures After(counts, jobs, k).ledgers[rt].usage[j] >= 0.0 {
      ExactLedger(counts, jobs, k, rt, j);
      PendingIsNonNegative(counts, After(counts, jobs, k), jobs[k..], rt, j);
    }
  }

  /** No job pruned so far fits. */
  ghost predicate NoneFits(counts: seq<nat>, s: Sched)
    requires ValidSched(counts, s)
  {
    forall job :: job in s.pruned ==> CannotFit(s.ledgers[job.rt], job)
  }

  /** Nothing that was pruned would fit in the tables as they stand at any later time, in particular
      at the end. */
  lemma {:induction false} Maximality(counts: seq<nat>, jobs: seq<Job>, k: nat)
    requires ValidJobs(counts, jobs) && k <= |jobs|
    ensures ValidSched(counts, After(counts, jobs, k))
    ensures NoneFits(counts, After(counts, jobs, k))
  {
    SchedIsValid(counts, jobs, k);
    if k > 0 {
      Maximality(counts, jobs, k - 1);
      var next := After(counts, jobs, k);
      forall job | job in next.pruned ensures CannotFit(next.ledgers[job.rt], job) {
        StillCannotFit(counts, jobs, k - 1, job);
      }
    }
  }

  lemma {:induction false} StillCannotFit(counts: seq<nat>, jobs: seq<Job>, k: nat, job: Job)
    requires ValidJobs(counts, jobs) && k < |jobs|
    requires ValidSched(counts, After(counts, jobs, k)) && NoneFits(counts, After(counts, jobs, k))
    requires ValidSched(counts, After(counts, jobs, k + 1)) && job in After(counts, jobs, k + 1).pruned
    ensures CannotFit(After(counts, jobs, k + 1).ledgers[job.rt], job)
  {
    AfterNext(counts, jobs, k);
    if job in After(counts, jobs, k).pruned {
      StepGrows(counts, jobs, k, job.rt);
      CannotFitGrows(After(counts, jobs, k).ledgers[job.rt], After(counts, jobs, k + 1).ledgers[job.rt], job);
    } else {
      assert job == jobs[k];
      PrunedCannotFit(After(counts, jobs, k).ledgers[job.rt], job);
    }
  }

  /* ---------- what a pruned running job leaves behind ---------- */

  /** The job would fit if only the kept jobs counted, and not what pruned running jobs have reserved. */
  ghost predicate FitsBesideKept(s: Sched, job: Job)
    requires job.rt < |s.ledgers| && ValidUsage(job.usage)
  {
    var count := |s.ledgers[job.rt].usage|;
    if job.running then
      forall j :: j in job.indices && j < count ==> Load(s.kept, job.rt, j, false) + Share(job.usage) <= 1.0
    else if job.usage < 1.0 then
      exists i :: i in job.usable && i < count && Load(s.kept, job.rt, i, false) + job.usage <= 1.0
    else NumInstances(job.usage) <= |set i: nat | i < count && i in job.usable && Load(s.kept, job.rt, i, false) == 0.0|
  }

  /** There is room for a fractional job on instance i but for the reservations of pruned jobs there. */
  ghost predicate OnlyReserved(s: Sched, job: Job, i: nat) {
    var kept, reserved := Load(s.kept, job.rt, i, false), Load(s.pruned, job.rt, i, true);
    i in job.usable && kept + job.usage <= 1.0 < kept + reserved + job.usage
  }

  /** The reservation of a pruned running job is never released. A pruned job fits beside the kept ones at
      the end if and only if it is a new fractional job, and a reservation of pruned jobs is all that stands
      in its way on some instance. */
  lemma {:induction false} PrunedFitsIff(counts: seq<nat>, jobs: seq<Job>, job: Job)
    requires ValidJobs(counts, jobs) && job in After(counts, jobs, |jobs|).pruned
    ensures ValidSched(counts, After(counts, jobs, |jobs|))
    ensures var s := After(counts, jobs, |jobs|);
      FitsBesideKept(s, job) <==>
      !job.running && job.usage < 1.0 && exists i: nat :: i < counts[job.rt] && OnlyReserved(s, job, i)
  {
    var s := After(counts, jobs, |jobs|);
    Maximality(counts, jobs, |jobs|);
    forall i: nat | i < counts[job.rt] ensures FinalLedger(s, job.rt, i) { LedgerAtEnd(counts, jobs, job.rt, i); }
    PrunedFits(counts, s, job);
  }

  ghost predicate FinalLedger(s: Sched, rt: nat, i: nat) {
    rt < |s.ledgers| && i < |s.ledgers[rt].usage| && i < |s.ledgers[rt].pending| &&
    s.ledgers[rt].usage[i] == Load(s.kept, rt, i, false) && s.ledgers[rt].pending[i] == Load(s.pruned, rt, i, true)
  }

  lemma {:induction false} LedgerAtEnd(counts: seq<nat>, jobs: seq<Job>, rt: nat, i: nat)
    requires ValidJobs(counts, jobs) && 0 < rt < |counts| && i < counts[rt]
    ensures FinalLedger(After(counts, jobs, |jobs|), rt, i)
  {
    ExactLedger(counts, jobs, |jobs|, rt, i);
    assert jobs[|jobs|..] == [];
  }

  lemma {:induction false} PrunedFits(counts: seq<nat>, s: Sched, job: Job)
    requires ValidSched(counts, s) && NoneFits(counts, s) && job in s.pruned
    requires forall i: nat :: i < counts[job.rt] ==> FinalLedger(s, job.rt, i)
    ensures FitsBesideKept(s, job) <==>
      !job.running && job.usage < 1.0 && exists i: nat :: i < counts[job.rt] && OnlyReserved(s, job, i)
  {
    var l, n := s.ledgers[job.rt], counts[job.rt];
    assert CannotFit(l, job);
    if job.running {
      var j :| j in job.indices && j < n && l.usage[j] + Share(job.usage) > 1.0;
      assert FinalLedger(s, job.rt, j);
    } else if job.usage < 1.0 {
      forall i: nat | i < n && i in job.usable
        ensures Load(s.kept, job.rt, i, false) + job.usage <= 1.0 <==> OnlyReserved(s, job, i)
      {
        assert FinalLedger(s, job.rt, i);
      }
    } else {
      var free := set i: nat | i < n && i in job.usable && Load(s.kept, job.rt, i, false) == 0.0;
      forall i: nat ensures i in free <==> i in SetBelow(n, Free(l, job)) {
        if i < n { assert FinalLedger(s, job.rt, i); }
      }
      assert free == SetBelow(n, Free(l, job));
    }
  }

  const HALF := Job(1, 0.5, false, {0}, [])
  const RUNNING := Job(1, 1.0, true, {0}, [0])
  const LATER := Job(1, 0.4, false, {0}, [])

  /** One instance of type 1, used and reserved as told. */
  function OneInstance(usage: real, pending: real): seq<Ledger> {
    [Ledger([], []), Ledger([usage], [pending])]
  }

  lemma {:induction false} OneReservation()
    ensures ValidJobs([0, 1], [HALF, RUNNING, LATER])
    ensures Initial([0, 1], [HALF, RUNNING, LATER]) == Sched(OneInstance(0.0, 1.0), [], [])
  {
    var jobs := [HALF, RUNNING, LATER];
    assert RUNNING.usage.Floor == 1;
    assert jobs[..2] == [HALF, RUNNING] && [HALF, RUNNING][..1] == [HALF] && [HALF][..0] == [];
    assert Load([HALF], 1, 0, true) == 0.0;
    assert Load([HALF, RUNNING], 1, 0, true) == 1.0;
    var ls := Initial([0, 1], jobs).ledgers;
    assert ls[0] == Ledger([], []) && ls[1] == Ledger([0.0], [1.0]);
  }

  lemma {:induction false} HalfTakesIt(s: Sched)
    requires s == Sched(OneInstance(0.0, 1.0), [], [])
    ensures Step(s, HALF) == Sched(OneInstance(0.5, 1.0), [HALF.(indices := [0])], [])
  {
    FractionalPlaces(s.ledgers[1], HALF, 0);
    FractionalCharged(s.ledgers[1], HALF, 0);
    assert s.ledgers[1 := Ledger([0.5], [1.0])] == OneInstance(0.5, 1.0);
    assert s.ledgers[1].usage[0 := 0.5] == [0.5];
  }

  lemma {:induction false} OthersArePruned(s: Sched)
    requires s == Sched(OneInstance(0.5, 1.0), [HALF.(indices := [0])], [])
    ensures Step(s, RUNNING) == s.(pruned := [RUNNING])
    ensures Step(Step(s, RUNNING), LATER) == s.(pruned := [RUNNING, LATER])
  {
    assert 0 in RUNNING.indices && Place(s.ledgers[1], RUNNING).None?;
    assert CannotFit(s.ledgers[1], LATER);
    PrunedCannotFit(s.ledgers[1], LATER);
  }

  lemma {:induction false} HalfIsUsed(s: Sched)
    requires s.kept == [HALF.(indices := [0])] && |s.ledgers| == 2 && |s.ledgers[1].usage| == 1
    ensures FitsBesideKept(s, LATER)
  {
    assert s.kept[..0] == [] && Load(s.kept, 1, 0, false) == 0.5;
    assert 0 in LATER.usable;
  }

  /** A running job has reserved the instance in full, and a new one takes half of it. The running job is
      pruned, and so is another new one that would fit beside the first. */
  lemma {:induction false} SomePrunedJobFits()
    ensures var jobs := [HALF, RUNNING, LATER];
      ValidJobs([0, 1], jobs) &&
      After([0, 1], jobs, 3) == Sched(OneInstance(0.5, 1.0), [HALF.(indices := [0])], [RUNNING, LATER]) &&
      FitsBesideKept(After([0, 1], jobs, 3), LATER)
  {
    var jobs, counts := [HALF, RUNNING, LATER], [0, 1];
    OneReservation();
    assert After(counts, jobs, 0) == Initial(counts, jobs);
    HalfTakesIt(After(counts, jobs, 0));
    AfterNext(counts, jobs, 0);
    OthersArePruned(After(counts, jobs, 1));
    AfterNext(counts, jobs, 1);
    AfterNext(counts, jobs, 2);
    HalfIsUsed(After(counts, jobs, 3));
  }

  /* ---------- what can evict a running job ---------- */

  /** A new job takes instance j although a running job has it reserved: the second pass of integer
      placement, or the second pass of fractional placement (no instance had room). */
  predicate Steals(l: Ledger, job: Job, j: nat)
    requires ValidUsage(job.usage) && |l.usage| == |l.pending|
  {
    !job.running && j < |l.pending| && l.pending[j] != 0.0 && Place(l, job).Some? && j in Place(l, job).value &&
    (job.usage < 1.0 ==> FirstFrom(0, |l.usage|, Shareable(l, job)).None?)
  }

  /** Job number i steals instance j of type rt. */
  ghost predicate StealsAt(counts: seq<nat>, jobs: seq<Job>, i: nat, rt: nat, j: nat)
    requires ValidJobs(counts, jobs) && i < |jobs|
  {
    jobs[i].rt == rt && rt != 0 && ValidLedgers(counts, After(counts, jobs, i).ledgers) &&
    Steals(After(counts, jobs, i).ledgers[rt], jobs[i], j)
  }

  /** As long as nobody stole instance j, usage plus pending usage stays within capacity there. */
  lemma {:induction false} NoStealNoOverload(counts: seq<nat>, jobs: seq<Job>, k: nat, rt: nat, j: nat)
    requires ValidJobs(counts, jobs) && k <= |jobs| && 0 < rt < |counts| && j < counts[rt]
    requires Load(jobs, rt, j, true) <= 1.0
    requires forall i: nat :: i < k ==> !StealsAt(counts, jobs, i, rt, j)
    ensures ValidLedgers(counts, After(counts, jobs, k).ledgers)
    ensures After(counts, jobs, k).ledgers[rt].usage[j] + After(counts, jobs, k).ledgers[rt].pending[j] <= 1.0
  {
    SchedIsValid(counts, jobs, k);
    if k == 0 {
      assert After(counts, jobs, 0) == Initial(counts, jobs);
    } else {
      NoStealNoOverload(counts, jobs, k - 1, rt, j);
      NoOverloadNext(counts, jobs, k - 1, rt, j, After(counts, jobs, k - 1));
    }
  }

  lemma {:induction false} NoOverloadNext(counts: seq<nat>, jobs: seq<Job>, k: nat, rt: nat, j: nat, s: Sched)
    requires ValidJobs(counts, jobs) && k < |jobs| && 0 < rt < |counts| && j < counts[rt]
    requires s == After(counts, jobs, k) && ValidLedgers(counts, s.ledgers)
    requires s.ledgers[rt].usage[j] + s.ledgers[rt].pending[j] <= 1.0 && !StealsAt(counts, jobs, k, rt, j)
    ensures ValidLedgers(counts, After(counts, jobs, k + 1).ledgers)
    ensures After(counts, jobs, k + 1).ledgers[rt].usage[j] + After(counts, jobs, k + 1).ledgers[rt].pending[j] <= 1.0
  {
    assert After(counts, jobs, k + 1) == Step(s, jobs[k]) by { AfterNext(counts, jobs, k); }
    assert ValidSched(counts, s) by { SchedIsValid(counts, jobs, k); }
    NoOverloadStep(counts, s, jobs[k], rt, j);
  }

  lemma {:induction false} NoOverloadStep(counts: seq<nat>, s: Sched, job: Job, rt: nat, j: nat)
    requires ValidSched(counts, s) && ValidJob(counts, job) && 0 < rt < |counts| && j < counts[rt]
    requires s.ledgers[rt].usage[j] + s.ledgers[rt].pending[j] <= 1.0
    requires job.rt == rt ==> !Steals(s.ledgers[rt], job, j)
    ensures ValidLedgers(counts, Step(s, job).ledgers)
    ensures Step(s, job).ledgers[rt].usage[j] + Step(s, job).ledgers[rt].pending[j] <= 1.0
  {
    StepIsValid(counts, s, job);
    if job.rt == rt && Place(s.ledgers[rt], job).Some? {
      PlaceIsValid(counts[rt], s.ledgers[rt], job);
    }
  }

  /** With initial pending usage at most 1, a running job is pruned only if an earlier new job stole
      one of the instances it holds. */
  lemma {:induction false} EvictionNeedsSteal(counts: seq<nat>, jobs: seq<Job>, k: nat)
    requires ValidJobs(counts, jobs) && k < |jobs| && jobs[k].rt != 0 && jobs[k].running
    requires forall j :: j in jobs[k].indices ==> Load(jobs, jobs[k].rt, j, true) <= 1.0
    requires Place(After(counts, jobs, k).ledgers[jobs[k].rt], jobs[k]).None?
    ensures exists i: nat, j: nat :: i < k && j in jobs[k].indices && StealsAt(counts, jobs, i, jobs[k].rt, j)
  {
    var s, job := After(counts, jobs, k), jobs[k];
    SchedIsValid(counts, jobs, k);
    var j :| j in job.indices && j < |s.ledgers[job.rt].usage| && s.ledgers[job.rt].usage[j] + Share(job.usage) > 1.0;
    ExactLedger(counts, jobs, k, job.rt, j);
    LoadHead(jobs[k..], job.rt, j, true);
    LoadNonNegative(jobs[k..][1..], job.rt, j, true);
    PendingIsNonNegative(counts, s, jobs[k..], job.rt, j);
    if forall i: nat :: i < k ==> !StealsAt(counts, jobs, i, job.rt, j) {
      NoStealNoOverload(counts, jobs, k, job.rt, j);
      assert false;
    }
  }

  /** Integer placement steals only when it has to: enough instances are free, too few of them
      unreserved. */
  lemma {:induction false} IntegerStealsIff(l: Ledger, job: Job)
    requires ValidUsage(job.usage) && !job.running && job.usage >= 1.0 && |l.usage| == |l.pending|
    ensures (exists j: nat :: Steals(l, job, j)) <==>
      |SetBelow(|l.usage|, Idle(l, job))| < NumInstances(job.usage) <= |SetBelow(|l.usage|, Free(l, job))|
  {
    BelowCard(|l.usage|, Idle(l, job));
    IntegerSucceedsIff(l, job);
    var idle, n := |Below(|l.usage|, Idle(l, job))|, NumInstances(job.usage);
    if Place(l, job).Some? {
      var idx := Place(l, job).value;
      if idle < n {
        CandidateShape(l, job, idle);
        assert idx[idle] in idx && Steals(l, job, idx[idle]);
      } else {
        forall j: nat ensures !Steals(l, job, j) {
          if j in idx {
            var a :| 0 <= a < |idx| && idx[a] == j;
            CandidateShape(l, job, a);
          }
        }
      }
    }
  }

  /** Fractional placement makes no such effort: when no instance has room it takes the lowest free
      one, reserved or not. */
  lemma {:induction false} FractionalStealsIff(l: Ledger, job: Job)
    requires ValidUsage(job.usage) && !job.running && job.usage < 1.0 && |l.usage| == |l.pending|
    ensures (exists j: nat :: Steals(l, job, j)) <==>
      (forall i: nat :: i < |l.usage| ==> !Shareable(l, job)(i)) &&
      exists i: nat :: Reserved(l, job)(i) && forall m: nat :: m < i ==> !Free(l, job)(m)
  {
    var n := |l.usage|;
    if j: nat :| Steals(l, job, j) {
      assert Reserved(l, job)(j) && forall m: nat :: m < j ==> !Free(l, job)(m);
      assert forall i: nat :: i < n ==> !Shareable(l, job)(i);
    }
    if i: nat :| Reserved(l, job)(i) && forall m: nat :: m < i ==> !Free(l, job)(m) {
      if forall m: nat :: m < n ==> !Shareable(l, job)(m) {
        assert Free(l, job)(i);
        assert FirstFrom(0, n, Shareable(l, job)).None? && FirstFrom(0, n, Free(l, job)) == Some(i);
        assert i in Place(l, job).value && Steals(l, job, i);
      }
    }
  }

  /** Job steals an instance although an unreserved one is free. */
  ghost predicate StealsNeedlessly(l: Ledger, job: Job)
    requires ValidUsage(job.usage) && |l.usage| == |l.pending|
  {
    (exists j: nat :: Steals(l, job, j)) && exists i: nat :: Idle(l, job)(i)
  }

  ghost predicate FirstFree(l: Ledger, job: Job, i: nat) {
    Free(l, job)(i) && forall m: nat :: m < i ==> !Free(l, job)(m)
  }

  /** Placement of whole instances may take reserved ones beside unreserved ones, but then it takes all
      of those: it never steals more than it must (IntegerPlacementExact). A fractional job needs one
      instance, and steals needlessly if and only if none has room and its first free one is reserved
      while a later one is not. */
  lemma {:induction false} NeedlessStealIff(l: Ledger, job: Job)
    requires ValidUsage(job.usage) && !job.running && job.usage < 1.0 && |l.usage| == |l.pending|
    ensures StealsNeedlessly(l, job) <==>
      (forall i: nat :: i < |l.usage| ==> !Shareable(l, job)(i)) &&
      exists i: nat, k: nat :: i < k && Idle(l, job)(k) && FirstFree(l, job, i) && Reserved(l, job)(i)
  {
    FractionalStealsIff(l, job);
    if StealsNeedlessly(l, job) {
      var i: nat :| Reserved(l, job)(i) && forall m: nat :: m < i ==> !Free(l, job)(m);
      var k: nat :| Idle(l, job)(k);
      assert Free(l, job)(k) && FirstFree(l, job, i);
    }
    if i: nat, k: nat :| i < k && Idle(l, job)(k) && FirstFree(l, job, i) && Reserved(l, job)(i) {
      assert forall m: nat :: m < i ==> !Free(l, job)(m);
    }
  }

  /** Two instances, the first one reserved in full by a running job: half a GPU goes to that one although
      the other one is free and unreserved. */
  lemma {:induction false} SomeStealIsNeedless()
    ensures var l, job := Ledger([0.0, 0.0], [1.0, 0.0]), Job(1, 0.5, false, {0, 1}, []);
      Place(l, job) == Some([0]) && Steals(l, job, 0) && Idle(l, job)(1) && StealsNeedlessly(l, job)
  {
    var l, job := Ledger([0.0, 0.0], [1.0, 0.0]), Job(1, 0.5, false, {0, 1}, []);
    FractionalPlaces(l, job, 0);
    assert FirstFrom(0, 2, Shareable(l, job)).None?;
    assert Steals(l, job, 0) && Idle(l, job)(1);
  }

  const ANYWHERE := HALF.(usable := {0, 1})

  /** Two instances of type 1, the first one reserved in full. */
  function FirstReserved(usage: real): seq<Ledger> {
    [Ledger([], []), Ledger([usage, 0.0], [1.0, 0.0])]
  }

  lemma {:induction false} FirstIsReserved()
    ensures ValidJobs([0, 2], [ANYWHERE, RUNNING])
    ensures Initial([0, 2], [ANYWHERE, RUNNING]) == Sched(FirstReserved(0.0), [], [])
  {
    var jobs := [ANYWHERE, RUNNING];
    assert RUNNING.usage.Floor == 1;
    assert jobs[..1] == [ANYWHERE] && [ANYWHERE][..0] == [];
    assert Load([ANYWHERE], 1, 0, true) == Load([ANYWHERE], 1, 1, true) == 0.0;
    assert Load(jobs, 1, 0, true) == 1.0 && Load(jobs, 1, 1, true) == 0.0;
    var ls := Initial([0, 2], jobs).ledgers;
    assert ls[0] == Ledger([], []) && ls[1] == Ledger([0.0, 0.0], [1.0, 0.0]);
  }

  lemma {:induction false} FirstIsTaken(s: Sched)
    requires s == Sched(FirstReserved(0.0), [], [])
    ensures Step(s, ANYWHERE) == Sched(FirstReserved(0.5), [ANYWHERE.(indices := [0])], [])
  {
    FractionalPlaces(s.ledgers[1], ANYWHERE, 0);
    FractionalCharged(s.ledgers[1], ANYWHERE, 0);
    assert s.ledgers[1].usage[0 := 0.5] == [0.5, 0.0];
    assert s.ledgers[1 := Ledger([0.5, 0.0], [1.0, 0.0])] == FirstReserved(0.5);
  }

  /** The same on a run: the running job is evicted by a new one, and at the end the second instance is
      neither used nor reserved. */
  lemma {:induction false} SomeEvictionIsNeedless()
    ensures var jobs := [ANYWHERE, RUNNING];
      ValidJobs([0, 2], jobs) &&
      After([0, 2], jobs, 2) == Sched(FirstReserved(0.5), [ANYWHERE.(indices := [0])], [RUNNING])
  {
    var jobs, counts := [ANYWHERE, RUNNING], [0, 2];
    FirstIsReserved();
    assert After(counts, jobs, 0) == Initial(counts, jobs);
    FirstIsTaken(After(counts, jobs, 0));
    AfterNext(counts, jobs, 0);
    var s := After(counts, jobs, 1);
    assert 0 in RUNNING.indices && Place(s.ledgers[1], RUNNING).None?;
    AfterNext(counts, jobs, 1);
  }

  /* ---------- stability ---------- */

  /** The kept jobs once they have been started. */
  function Started(kept: seq<Job>): (r: seq<Job>)
    ensures |r| == |kept|
    ensures forall k :: 0 <= k < |kept| ==> r[k] == kept[k].(running := true)
  {
    seq(|kept|, (k: nat) requires k < |kept| => kept[k].(running := true))
  }

  lemma {:induction false} StartedLoad(kept: seq<Job>, rt: nat, j: nat)
    ensures Load(Started(kept), rt, j, true) == Load(kept, rt, j, false)
  {
    if kept != [] {
      StartedLoad(kept[..|kept| - 1], rt, j);
      assert Started(kept)[..|kept| - 1] == Started(kept[..|kept| - 1]);
    }
  }

  /** Allocating again, with every kept job now running, keeps the same list and the same instances. */
  lemma {:induction false} Stability(counts: seq<nat>, jobs: seq<Job>)
    requires ValidJobs(counts, jobs)
    ensures var again := Started(After(counts, jobs, |jobs|).kept);
      ValidJobs(counts, again) &&
      After(counts, again, |again|).kept == again && After(counts, again, |again|).pruned == []
  {
    var again := Started(After(counts, jobs, |jobs|).kept);
    SchedIsValid(counts, jobs, |jobs|);
    StartedIsValid(counts, After(counts, jobs, |jobs|).kept);
    StableUpTo(counts, jobs, again, |again|);
    assert again[..|again|] == again;
  }

  lemma {:induction false} StableUpTo(counts: seq<nat>, jobs: seq<Job>, again: seq<Job>, k: nat)
    requires ValidJobs(counts, jobs) && ValidSched(counts, After(counts, jobs, |jobs|))
    requires again == Started(After(counts, jobs, |jobs|).kept) && ValidJobs(counts, again) && k <= |again|
    ensures After(counts, again, k).kept == again[..k] && After(counts, again, k).pruned == []
  {
    if k == 0 {
      assert After(counts, again, 0) == Initial(counts, again);
    } else {
      StableUpTo(counts, jobs, again, k - 1);
      StableNext(counts, jobs, again, k - 1, After(counts, again, k - 1));
    }
  }

  lemma {:induction false} StableNext(counts: seq<nat>, jobs: seq<Job>, again: seq<Job>, k: nat, s: Sched)
    requires ValidJobs(counts, jobs) && ValidSched(counts, After(counts, jobs, |jobs|))
    requires again == Started(After(counts, jobs, |jobs|).kept) && ValidJobs(counts, again) && k < |again|
    requires s == After(counts, again, k) && s.kept == again[..k] && s.pruned == []
    ensures After(counts, again, k + 1).kept == again[..k + 1] && After(counts, again, k + 1).pruned == []
  {
    var job := again[k];
    assert After(counts, again, k + 1) == Step(s, job) by { AfterNext(counts, again, k); }
    assert job.rt != 0 ==> Place(s.ledgers[job.rt], job) == Some(job.indices) by {
      if job.rt != 0 { NeverEvicted(counts, jobs, again, k); }
    }
    StepKeepsJob(s, job);
    assert again[..k + 1] == again[..k] + [job];
  }

  lemma {:induction false} StepKeepsJob(s: Sched, job: Job)
    requires job.rt != 0 ==> job.rt < |s.ledgers| && ValidUsage(job.usage)
    requires job.rt != 0 ==> Place(s.ledgers[job.rt], job) == Some(job.indices)
    ensures Step(s, job).kept == s.kept + [job] && Step(s, job).pruned == s.pruned
  {
  }

  lemma {:induction false} StartedIsValid(counts: seq<nat>, kept: seq<Job>)
    requires ValidJobs(counts, kept)
    requires forall job :: job in kept && job.rt != 0 ==> ValidPlacement(counts[job.rt], job.usage, job.indices)
    ensures ValidJobs(counts, Started(kept))
  {
    forall i | 0 <= i < |kept| ensures ValidJob(counts, Started(kept)[i]) { assert kept[i] in kept; }
  }

  /** None of the started jobs loses its instances, since together they fit. */
  lemma {:induction false} NeverEvicted(counts: seq<nat>, jobs: seq<Job>, again: seq<Job>, k: nat)
    requires ValidJobs(counts, jobs) && ValidSched(counts, After(counts, jobs, |jobs|))
    requires again == Started(After(counts, jobs, |jobs|).kept) && ValidJobs(counts, again)
    requires k < |again| && again[k].rt != 0
    ensures Place(After(counts, again, k).ledgers[again[k].rt], again[k]) == Some(again[k].indices)
  {
    var job := again[k];
    assert After(counts, jobs, |jobs|).kept[k] in After(counts, jobs, |jobs|).kept;
    forall j | j in job.indices ensures Load(again, job.rt, j, true) <= 1.0 {
      StartedLoad(After(counts, jobs, |jobs|).kept, job.rt, j);
      ExactLedger(counts, jobs, |jobs|, job.rt, j);
    }
    forall i: nat, j: nat | i < k ensures !StealsAt(counts, again, i, job.rt, j) {}
    if Place(After(counts, again, k).ledgers[job.rt], job).None? {
      EvictionNeedsSteal(counts, again, k);
      assert false;
    }
  }

  /* ---------- the allocator as the source writes it ---------- */

  /** A GPU type: the first `count` entries of the two tables are in use. */
  class Coproc {
    const count: nat
    const usage: array<real>
    const pendingUsage: array<real>

    ghost predicate Valid() {
      count <= MAX_COPROC_INSTANCES == usage.Length == pendingUsage.Length && usage != pendingUsage
    }

    ghost function View(): Ledger
      requires Valid()
      reads usage, pendingUsage
    {
      Ledger(usage[..count], pendingUsage[..count])
    }

    constructor (count: nat)
      requires count <= MAX_COPROC_INSTANCES
      ensures Valid() && this.count == count && fresh(usage) && fresh(pendingUsage)
    {
      this.count := count;
      usage := new real[MAX_COPROC_INSTANCES];
      pendingUsage := new real[MAX_COPROC_INSTANCES];
    }

    method ClearUsage()
      requires Valid()
      modifies usage, pendingUsage
      ensures forall i :: 0 <= i < count ==> View().usage[i] == View().pending[i] == 0.0
    {
      for i := 0 to count
        invariant forall k :: 0 <= k < i ==> usage[k] == pendingUsage[k] == 0.0
      {
        usage[i] := 0.0;
        pendingUsage[i] := 0.0;
      }
    }
  }

  /** A job of the run list. Its resource use, its task state and the exclusions that apply to it
      do not change during allocation; its instances do. */
  class Result {
    const rt: nat
    const usage: real
    const running: bool
    const usable: set<nat>
    var coprocIndices: seq<nat>

    ghost function View(): Job
      reads this
    {
      Job(rt, usage, running, usable, coprocIndices)
    }

    constructor (rt: nat, usage: real, running: bool, usable: set<nat>, indices: seq<nat>)
      ensures View() == Job(rt, usage, running, usable, indices)
    {
      this.rt, this.usage, this.running, this.usable, this.coprocIndices := rt, usage, running, usable, indices;
    }
  }

  method IncrementPendingUsage(rp: Result, cp: Coproc)
    requires cp.Valid() && ValidPlacement(cp.count, rp.usage, rp.coprocIndices)
    modifies cp.pendingUsage
    ensures cp.View() == Ledger(old(cp.View().usage),
                                AddOn(old(cp.View().pending), rp.coprocIndices, Share(rp.usage)))
  {
    var x := if rp.usage < 1.0 then rp.usage else 1.0;
    var i := 0;
    while i as real < rp.usage
      invariant 0 <= i <= |rp.coprocIndices|
      invariant forall k :: 0 <= k < cp.count ==>
        cp.pendingUsage[k] == old(cp.pendingUsage[k]) + if k in rp.coprocIndices[..i] then x else 0.0
      decreases |rp.coprocIndices| - i
    {
      var j := rp.coprocIndices[i];
      assert j in rp.coprocIndices;
      cp.pendingUsage[j] := cp.pendingUsage[j] + x;
      i := i + 1;
    }
    assert rp.coprocIndices[..i] == rp.coprocIndices;
  }

  method CurrentAssignmentOk(rp: Result, cp: Coproc) returns (ok: bool)
    requires cp.Valid() && ValidPlacement(cp.count, rp.usage, rp.coprocIndices)
    ensures ok <==> Fits(cp.View(), rp.coprocIndices, Share(rp.usage))
  {
    var x := if rp.usage < 1.0 then rp.usage else 1.0;
    var i := 0;
    while i as real < rp.usage
      invariant 0 <= i <= |rp.coprocIndices|
      invariant forall j :: j in rp.coprocIndices[..i] && j < cp.count ==> cp.usage[j] + x <= 1.0
      decreases |rp.coprocIndices| - i
    {
      var j := rp.coprocIndices[i];
      assert j in rp.coprocIndices;
      if cp.usage[j] + x > 1.0 {
        return false;
      }
      i := i + 1;
    }
    assert rp.coprocIndices[..i] == rp.coprocIndices;
    return true;
  }

  lemma {:induction false} AddOnNext(s: seq<real>, idx: seq<nat>, i: nat, x: real)
    requires Sequences.Distinct(idx) && i < |idx| && idx[i] < |s|
    ensures AddOn(s, idx[..i + 1], x) == AddOn(s, idx[..i], x)[idx[i] := AddOn(s, idx[..i], x)[idx[i]] + x]
  {
    assert idx[..i + 1] == idx[..i] + [idx[i]];
    assert idx[i] !in idx[..i];
  }

  /** A share moves from pending usage to usage, on instance j. */
  method MoveShare(cp: Coproc, j: nat, x: real)
    requires cp.Valid() && j < cp.count
    modifies cp.usage, cp.pendingUsage
    ensures cp.View() == var l := old(cp.View());
      Ledger(l.usage[j := l.usage[j] + x], l.pending[j := l.pending[j] + -x])
  {
    cp.usage[j] := cp.usage[j] + x;
    cp.pendingUsage[j] := cp.pendingUsage[j] - x;
  }

  method ConfirmCurrentAssignment(rp: Result, cp: Coproc)
    requires cp.Valid() && ValidPlacement(cp.count, rp.usage, rp.coprocIndices) && rp.running
    modifies cp.usage, cp.pendingUsage
    ensures cp.View() == Charge(old(cp.View()), rp.View(), rp.coprocIndices)
  {
    ghost var l, idx := cp.View(), rp.coprocIndices;
    var x := if rp.usage < 1.0 then rp.usage else 1.0;
    var i := 0;
    while i as real < rp.usage
      invariant 0 <= i <= |idx|
      invariant cp.View() == Ledger(AddOn(l.usage, idx[..i], x), AddOn(l.pending, idx[..i], -x))
      decreases |idx| - i
    {
      var j := rp.coprocIndices[i];
      assert j in idx;
      AddOnNext(l.usage, idx, i, x);
      AddOnNext(l.pending, idx, i, -x);
      MoveShare(cp, j, x);
      i := i + 1;
    }
    assert idx[..i] == idx;
  }

  /** What handling one job does: it keeps or gets the instances that Place says and is charged for
      them, or nothing changes. */
  ghost predicate Handled(l: Ledger, job: Job, ok: bool, l': Ledger, job': Job)
    requires ValidUsage(job.usage)
  {
    match Place(l, job)
    case None => !ok && l' == l && job' == job
    case Some(idx) => ok && l' == Charge(l, job, idx) && job' == job.(indices := idx)
  }

  lemma {:induction false} FractionalPlaces(l: Ledger, job: Job, i: nat)
    requires ValidUsage(job.usage) && job.usage < 1.0 && !job.running && i < |l.usage| == |l.pending|
    requires Shareable(l, job)(i) ==> forall k: nat :: k < i ==> !Shareable(l, job)(k)
    requires !Shareable(l, job)(i) ==>
      Free(l, job)(i) && (forall k: nat :: k < i ==> !Free(l, job)(k)) &&
      forall k: nat :: k < |l.usage| ==> !Shareable(l, job)(k)
    ensures Place(l, job) == Some([i])
  {
    if Shareable(l, job)(i) {
      assert FirstFrom(0, |l.usage|, Shareable(l, job)) == Some(i);
    } else {
      assert FirstFrom(0, |l.usage|, Free(l, job)) == Some(i);
    }
  }

  /** Give instance i to the job, at position n of its list. */
  method TakeInstance(rp: Result, cp: Coproc, i: nat, value: real)
    requires cp.Valid() && i < cp.count
    modifies rp, cp.usage
    ensures cp.View() == Ledger(old(cp.View().usage)[i := value], old(cp.View().pending))
    ensures rp.coprocIndices == old(rp.coprocIndices) + [i]
  {
    cp.usage[i] := value;
    rp.coprocIndices := rp.coprocIndices + [i];
  }

  /** Give a part of instance i, where the job belongs, to the job. */
  method TakeFraction(rp: Result, cp: Coproc, i: nat)
    requires cp.Valid() && i < cp.count && ValidUsage(rp.usage) && rp.usage < 1.0 && !rp.running
    requires Place(cp.View(), rp.View()) == Some([i])
    modifies rp, cp.usage
    ensures Handled(old(cp.View()), old(rp.View()), true, cp.View(), rp.View())
  {
    ghost var l, job := cp.View(), rp.View();
    rp.coprocIndices := [];
    TakeInstance(rp, cp, i, cp.usage[i] + rp.usage);
    assert cp.View() == Charge(l, job, [i]) by { FractionalCharged(l, job, i); }
    assert rp.View() == job.(indices := [i]);
  }

  method GetFractionalAssignment(rp: Result, cp: Coproc) returns (ok: bool)
    requires cp.Valid() && ValidUsage(rp.usage) && rp.usage < 1.0 && !rp.running
    modifies rp, cp.usage
    ensures Handled(old(cp.View()), old(rp.View()), ok, cp.View(), rp.View())
  {
    ghost var l, job := cp.View(), rp.View();
    for i := 0 to cp.count
      invariant cp.View() == l && rp.View() == job
      invariant forall k: nat :: k < i ==> !Shareable(l, job)(k)
    {
      if i in rp.usable && (cp.usage[i] != 0.0 || cp.pendingUsage[i] != 0.0) &&
         cp.usage[i] + cp.pendingUsage[i] + rp.usage <= 1.0 {
        FractionalPlaces(l, job, i);
        TakeFraction(rp, cp, i);
        return true;
      }
    }
    for i := 0 to cp.count
      invariant cp.View() == l && rp.View() == job
      invariant forall k: nat :: k < i ==> !Free(l, job)(k)
    {
      if i in rp.usable && cp.usage[i] == 0.0 {
        FractionalPlaces(l, job, i);
        TakeFraction(rp, cp, i);
        return true;
      }
    }
    assert FirstFrom(0, cp.count, Shareable(l, job)).None?;
    return false;
  }

  lemma {:induction false} FractionalCharged(l: Ledger, job: Job, i: nat)
    requires ValidUsage(job.usage) && job.usage < 1.0 && !job.running && i < |l.usage|
    ensures Charge(l, job, [i]) == Ledger(l.usage[i := l.usage[i] + job.usage], l.pending)
  {
    assert AddOn(l.usage, [i], job.usage) == l.usage[i := l.usage[i] + job.usage];
  }

  lemma {:induction false} BelowPrefix(m: nat, n: nat, p: nat -> bool)
    requires m <= n
    ensures Below(m, p) <= Below(n, p)
    decreases n
  {
    if m < n {
      BelowPrefix(m, n - 1, p);
    }
  }

  /** The usage table after the instances `idx` were given out whole. */
  function Marked(usage: seq<real>, idx: seq<nat>): (r: seq<real>)
    ensures |r| == |usage| && forall k :: 0 <= k < |usage| ==> r[k] == if k in idx then 1.0 else usage[k]
  {
    seq(|usage|, (k: nat) requires k < |usage| => if k in idx then 1.0 else usage[k])
  }

  lemma {:induction false} MarkedSnoc(usage: seq<real>, idx: seq<nat>, i: nat)
    requires i < |usage|
    ensures Marked(usage, idx + [i]) == Marked(usage, idx)[i := 1.0]
  {
  }

  lemma {:induction false} IntegerCharged(l: Ledger, job: Job, idx: seq<nat>)
    requires ValidUsage(job.usage) && job.usage >= 1.0 && !job.running && |l.usage| == |l.pending|
    requires idx <= Candidates(l, job) && |idx| == NumInstances(job.usage)
    ensures Place(l, job) == Some(idx) && Ledger(Marked(l.usage, idx), l.pending) == Charge(l, job, idx)
  {
    FreeCount(l, job);
    assert Candidates(l, job)[..|idx|] == idx;
    IntegerPlacementExact(l, job);
    assert Marked(l.usage, idx) == AddOn(l.usage, idx, 1.0);
  }

  /** Between the two passes: the instances `idx` are given out, and that is not enough yet. */
  ghost predicate Partial(l: Ledger, job: Job, m: Ledger, idx: seq<nat>)
    requires ValidUsage(job.usage)
  {
    m == Ledger(Marked(l.usage, idx), l.pending) && |idx| < NumInstances(job.usage)
  }

  lemma {:induction false} IdleStep(l: Ledger, job: Job, i: nat)
    requires i < |l.usage| == |l.pending|
    ensures var idx := Below(i, Idle(l, job));
      Below(i + 1, Idle(l, job)) ==
        if i in job.usable && Marked(l.usage, idx)[i] == 0.0 && l.pending[i] == 0.0 then idx + [i] else idx
  {
    assert i !in Below(i, Idle(l, job));
  }

  lemma {:induction false} ReservedStep(l: Ledger, job: Job, i: nat)
    requires i < |l.usage| == |l.pending|
    ensures var idx := Below(|l.usage|, Idle(l, job)) + Below(i, Reserved(l, job));
      Below(|l.usage|, Idle(l, job)) + Below(i + 1, Reserved(l, job)) ==
        if i in job.usable && Marked(l.usage, idx)[i] == 0.0 then idx + [i] else idx
  {
    assert i !in Below(i, Reserved(l, job));
    assert i in Below(|l.usage|, Idle(l, job)) <==> Idle(l, job)(i);
  }

  lemma {:induction false} CandidatePrefix(l: Ledger, job: Job, i: nat)
    requires i <= |l.usage|
    ensures Below(|l.usage|, Idle(l, job)) + Below(i, Reserved(l, job)) <= Candidates(l, job)
  {
    BelowPrefix(i, |l.usage|, Reserved(l, job));
  }

  method CountFree(rp: Result, cp: Coproc) returns (nfree: nat)
    requires cp.Valid()
    ensures nfree == |Below(cp.count, Free(cp.View(), rp.View()))|
  {
    nfree := 0;
    for i := 0 to cp.count
      invariant nfree == |Below(i, Free(cp.View(), rp.View()))|
    {
      if i in rp.usable && cp.usage[i] == 0.0 {
        nfree := nfree + 1;
      }
    }
  }

  /** The first pass at instance i. */
  method AssignIdleAt(rp: Result, cp: Coproc, i: nat, ghost l: Ledger, ghost job: Job) returns (done: bool)
    requires cp.Valid() && ValidUsage(rp.usage) && rp.usage >= 1.0 && !rp.running && i < cp.count
    requires l.Valid(cp.count) && rp.View() == job.(indices := rp.coprocIndices)
    requires rp.coprocIndices == Below(i, Idle(l, job)) && Partial(l, job, cp.View(), rp.coprocIndices)
    modifies rp, cp.usage
    ensures rp.View() == job.(indices := rp.coprocIndices)
    ensures done ==> Place(l, job) == Some(rp.coprocIndices) && cp.View() == Charge(l, job, rp.coprocIndices)
    ensures !done ==> rp.coprocIndices == Below(i + 1, Idle(l, job)) && Partial(l, job, cp.View(), rp.coprocIndices)
  {
    IdleStep(l, job, i);
    assert cp.usage[i] == cp.View().usage[i] && cp.pendingUsage[i] == cp.View().pending[i];
    if i in rp.usable && cp.usage[i] == 0.0 && cp.pendingUsage[i] == 0.0 {
      MarkedSnoc(l.usage, rp.coprocIndices, i);
      TakeInstance(rp, cp, i, 1.0);
      if |rp.coprocIndices| as real == rp.usage {
        BelowPrefix(i + 1, cp.count, Idle(l, job));
        IntegerCharged(l, job, rp.coprocIndices);
        return true;
      }
    }
    return false;
  }

  /** First pass: instances no running job has reserved. */
  method AssignIdle(rp: Result, cp: Coproc) returns (done: bool)
    requires cp.Valid() && ValidUsage(rp.usage) && rp.usage >= 1.0 && !rp.running && rp.coprocIndices == []
    modifies rp, cp.usage
    ensures done ==> Handled(old(cp.View()), old(rp.View()), true, cp.View(), rp.View())
    ensures !done ==>
      rp.coprocIndices == Below(cp.count, Idle(old(cp.View()), old(rp.View()))) &&
      Partial(old(cp.View()), old(rp.View()), cp.View(), rp.coprocIndices)
  {
    ghost var l, job := cp.View(), rp.View();
    assert l.usage == Marked(l.usage, []);
    for i := 0 to cp.count
      invariant rp.coprocIndices == Below(i, Idle(l, job)) && Partial(l, job, cp.View(), rp.coprocIndices)
      invariant rp.View() == job.(indices := rp.coprocIndices)
    {
      done := AssignIdleAt(rp, cp, i, l, job);
      if done {
        return true;
      }
    }
    return false;
  }

  /** The second pass at instance i. */
  method AssignReservedAt(rp: Result, cp: Coproc, i: nat, ghost l: Ledger, ghost job: Job) returns (done: bool)
    requires cp.Valid() && ValidUsage(rp.usage) && rp.usage >= 1.0 && !rp.running && i < cp.count
    requires l.Valid(cp.count) && rp.View() == job.(indices := rp.coprocIndices)
    requires rp.coprocIndices == Below(cp.count, Idle(l, job)) + Below(i, Reserved(l, job))
    requires Partial(l, job, cp.View(), rp.coprocIndices)
    modifies rp, cp.usage
    ensures rp.View() == job.(indices := rp.coprocIndices)
    ensures done ==> Place(l, job) == Some(rp.coprocIndices) && cp.View() == Charge(l, job, rp.coprocIndices)
    ensures !done ==>
      rp.coprocIndices == Below(cp.count, Idle(l, job)) + Below(i + 1, Reserved(l, job)) &&
      Partial(l, job, cp.View(), rp.coprocIndices)
  {
    ReservedStep(l, job, i);
    assert cp.usage[i] == cp.View().usage[i];
    if i in rp.usable && cp.usage[i] == 0.0 {
      MarkedSnoc(l.usage, rp.coprocIndices, i);
      TakeInstance(rp, cp, i, 1.0);
      if |rp.coprocIndices| as real == rp.usage {
        CandidatePrefix(l, job, i + 1);
        IntegerCharged(l, job, rp.coprocIndices);
        return true;
      }
    }
    return false;
  }

  /** Second pass: any instance still without usage. */
  method AssignReserved(rp: Result, cp: Coproc, ghost l: Ledger, ghost job: Job) returns (done: bool)
    requires cp.Valid() && ValidUsage(rp.usage) && rp.usage >= 1.0 && !rp.running
    requires l.Valid(cp.count) && rp.coprocIndices == Below(cp.count, Idle(l, job))
    requires rp.View() == job.(indices := rp.coprocIndices) && Partial(l, job, cp.View(), rp.coprocIndices)
    modifies rp, cp.usage
    ensures done ==>
      rp.View() == job.(indices := rp.coprocIndices) &&
      Place(l, job) == Some(rp.coprocIndices) && cp.View() == Charge(l, job, rp.coprocIndices)
    ensures !done ==> |Candidates(l, job)| < NumInstances(rp.usage)
  {
    ghost var n := cp.count;
    for i := 0 to cp.count
      invariant rp.coprocIndices == Below(n, Idle(l, job)) + Below(i, Reserved(l, job))
      invariant Partial(l, job, cp.View(), rp.coprocIndices) && rp.View() == job.(indices := rp.coprocIndices)
    {
      done := AssignReservedAt(rp, cp, i, l, job);
      if done {
        return true;
      }
    }
    return false;
  }

  method GetIntegerAssignment(rp: Result, cp: Coproc) returns (ok: bool)
    requires cp.Valid() && ValidUsage(rp.usage) && rp.usage >= 1.0 && !rp.running
    modifies rp, cp.usage
    ensures Handled(old(cp.View()), old(rp.View()), ok, cp.View(), rp.View())
  {
    ghost var l, job := cp.View(), rp.View();
    FreeCount(l, job);
    var nfree := CountFree(rp, cp);
    if nfree as real < rp.usage {
      return false;
    }
    rp.coprocIndices := [];
    ok := AssignIdle(rp, cp);
    if !ok {
      ok := AssignReserved(rp, cp, l, job);
    }
  }

  /** One pass of the main loop, for a GPU job. */
  method AssignOne(rp: Result, cp: Coproc) returns (ok: bool)
    requires cp.Valid() && ValidUsage(rp.usage)
    requires rp.running ==> ValidPlacement(cp.count, rp.usage, rp.coprocIndices)
    modifies rp, cp.usage, cp.pendingUsage
    ensures Handled(old(cp.View()), old(rp.View()), ok, cp.View(), rp.View())
  {
    if rp.running {
      ok := CurrentAssignmentOk(rp, cp);
      if ok {
        ConfirmCurrentAssignment(rp, cp);
      }
    } else if rp.usage < 1.0 {
      ok := GetFractionalAssignment(rp, cp);
    } else {
      ok := GetIntegerAssignment(rp, cp);
    }
  }

  /** The tables of different types do not overlap. */
  ghost predicate Separate(cps: seq<Coproc>) {
    (forall a :: 0 <= a < |cps| ==> cps[a].Valid()) &&
    (forall a, b :: 0 <= a < |cps| && 0 <= b < |cps| ==> cps[a].usage != cps[b].pendingUsage) &&
    (forall a, b :: 0 <= a < b < |cps| ==> cps[a].usage != cps[b].usage && cps[a].pendingUsage != cps[b].pendingUsage)
  }

  ghost predicate NoDuplicates(jobs: seq<Result>) {
    forall a, b :: 0 <= a < b < |jobs| ==> jobs[a] != jobs[b]
  }

  ghost function Tables(cps: seq<Coproc>): set<object> {
    (set c | c in cps :: c.usage) + (set c | c in cps :: c.pendingUsage)
  }

  ghost function Counts(cps: seq<Coproc>): seq<nat> {
    seq(|cps|, (rt: nat) requires rt < |cps| => cps[rt].count)
  }

  ghost predicate Views(cps: seq<Coproc>, ls: seq<Ledger>)
    requires Separate(cps)
    reads Tables(cps)
  {
    |ls| == |cps| && forall rt :: 0 <= rt < |cps| ==> cps[rt].View() == ls[rt]
  }

  ghost predicate ListViews(list: seq<Result>, jobs: seq<Job>)
    reads list
  {
    |list| == |jobs| && forall k :: 0 <= k < |list| ==> list[k].View() == jobs[k]
  }

  method ClearAll(cps: seq<Coproc>)
    requires Separate(cps)
    modifies Tables(cps)
    ensures Views(cps, Initial(Counts(cps), []).ledgers)
  {
    for rt := 0 to |cps|
      invariant forall r :: 0 <= r < rt ==> forall j :: 0 <= j < cps[r].count ==>
        cps[r].usage[j] == cps[r].pendingUsage[j] == 0.0
    {
      cps[rt].ClearUsage();
      assert forall j :: 0 <= j < cps[rt].count ==>
        cps[rt].usage[j] == cps[rt].View().usage[j] && cps[rt].pendingUsage[j] == cps[rt].View().pending[j];
    }
    forall rt | 0 <= rt < |cps| ensures cps[rt].View() == Initial(Counts(cps), []).ledgers[rt] {}
  }

  method Reserve(cps: seq<Coproc>, rp: Result, ghost ls: seq<Ledger>)
    requires Separate(cps) && Views(cps, ls) && 0 < rp.rt < |cps|
    requires ValidPlacement(cps[rp.rt].count, rp.usage, rp.coprocIndices)
    modifies Tables(cps)
    ensures var l := ls[rp.rt];
      Views(cps, ls[rp.rt := Ledger(l.usage, AddOn(l.pending, rp.coprocIndices, Share(rp.usage)))])
  {
    IncrementPendingUsage(rp, cps[rp.rt]);
  }

  method FillPendingUsage(cps: seq<Coproc>, list: seq<Result>, ghost jobs: seq<Job>)
    requires Separate(cps) && ListViews(list, jobs) && ValidJobs(Counts(cps), jobs)
    modifies Tables(cps)
    ensures Views(cps, Initial(Counts(cps), jobs).ledgers)
  {
    ClearAll(cps);
    ghost var counts := Counts(cps);
    ghost var ls := Initial(counts, []).ledgers;
    assert jobs[..0] == [];
    for i := 0 to |list|
      invariant ls == Initial(counts, jobs[..i]).ledgers && Views(cps, ls)
    {
      assert list[i].View() == jobs[i] && ValidJob(counts, jobs[i]);
      ls := ReserveIfRunning(cps, list[i], jobs, i, ls);
    }
    assert jobs[..|list|] == jobs;
  }

  method ReserveIfRunning(cps: seq<Coproc>, rp: Result, ghost jobs: seq<Job>, ghost i: nat, ghost ls: seq<Ledger>)
    returns (ghost next: seq<Ledger>)
    requires Separate(cps) && i < |jobs| && rp.View() == jobs[i] && ValidJob(Counts(cps), jobs[i])
    requires ls == Initial(Counts(cps), jobs[..i]).ledgers && Views(cps, ls)
    modifies Tables(cps)
    ensures next == Initial(Counts(cps), jobs[..i + 1]).ledgers && Views(cps, next)
  {
    if rp.rt != 0 && rp.running {
      Reserve(cps, rp, ls);
    }
    next := NextInitial(Counts(cps), jobs, i);
  }

  lemma {:induction false} NextInitial(counts: seq<nat>, jobs: seq<Job>, i: nat) returns (ls: seq<Ledger>)
    requires i < |jobs| && ValidJob(counts, jobs[i])
    ensures ls == Initial(counts, jobs[..i + 1]).ledgers
    ensures var before, job := Initial(counts, jobs[..i]).ledgers, jobs[i];
      ls == if job.rt != 0 && job.running then
        before[job.rt := Ledger(before[job.rt].usage, AddOn(before[job.rt].pending, job.indices, Share(job.usage)))]
      else before
  {
    InitialSnoc(counts, jobs[..i], jobs[i]);
    assert jobs[..i + 1] == jobs[..i] + [jobs[i]];
    ls := Initial(counts, jobs[..i + 1]).ledgers;
  }

  lemma {:induction false} InitialSnoc(counts: seq<nat>, jobs: seq<Job>, job: Job)
    requires ValidJob(counts, job)
    ensures var before, after := Initial(counts, jobs).ledgers, Initial(counts, jobs + [job]).ledgers;
      after == if job.rt != 0 && job.running then
        before[job.rt := Ledger(before[job.rt].usage, AddOn(before[job.rt].pending, job.indices, Share(job.usage)))]
      else before
  {
    var before, after := Initial(counts, jobs).ledgers, Initial(counts, jobs + [job]).ledgers;
    forall rt: nat, j: nat ensures Load(jobs + [job], rt, j, true) == Load(jobs, rt, j, true) + Part(job, rt, j, true) {
      LoadSnoc(jobs, job, rt, j, true);
    }
    forall rt | 0 <= rt < |counts|
      ensures after[rt].pending == if job.rt != 0 && job.running && rt == job.rt
        then AddOn(before[rt].pending, job.indices, Share(job.usage)) else before[rt].pending
    {}
    forall rt | 0 <= rt < |counts| ensures after[rt].usage == before[rt].usage {}
    forall rt | 0 <= rt < |counts| ensures after[rt] == Ledger(after[rt].usage, after[rt].pending) {}
  }

  /** One step of the main loop: `ok` says whether the job stays in the list. */
  method AssignNext(cps: seq<Coproc>, rp: Result, ghost s: Sched, ghost job: Job)
    returns (ok: bool, ghost next: Sched)
    requires Separate(cps) && Views(cps, s.ledgers) && rp.View() == job && ValidJob(Counts(cps), job)
    modifies Tables(cps), rp
    ensures next == Step(s, job) && Views(cps, next.ledgers)
    ensures next.kept == s.kept + if ok then [rp.View()] else []
  {
    next := Step(s, job);
    if rp.rt == 0 {
      ok := true;
    } else {
      ok := AssignOne(rp, cps[rp.rt]);
    }
  }

  /** The list `run` has i handled jobs in front; behind them is the part of `list` from k on. */
  ghost predicate Aligned(run: seq<Result>, i: nat, list: seq<Result>, k: nat) {
    i <= |run| && k <= |list| && |run| - i == |list| - k && NoDuplicates(list) &&
    (forall m :: i <= m < |run| ==> run[m] == list[k + m - i]) &&
    (forall m :: 0 <= m < i ==> run[m] in list) &&
    forall m, x :: 0 <= m < i && k <= x < |list| ==> run[m] != list[x]
  }

  lemma {:induction false} AlignedErase(run: seq<Result>, i: nat, list: seq<Result>, k: nat)
    requires Aligned(run, i, list, k) && i < |run|
    ensures Aligned(run[..i] + run[i + 1..], i, list, k + 1)
  {
  }

  lemma {:induction false} AlignedKeep(run: seq<Result>, i: nat, list: seq<Result>, k: nat)
    requires Aligned(run, i, list, k) && i < |run|
    ensures Aligned(run, i + 1, list, k + 1)
  {
  }

  /** The handled jobs look as the schedule says, the others as in the input. */
  ghost predicate InProgress(run: seq<Result>, i: nat, kept: seq<Job>, list: seq<Result>, k: nat, jobs: seq<Job>)
    reads run, list
  {
    Aligned(run, i, list, k) && |kept| == i && |jobs| == |list| &&
    (forall m :: 0 <= m < i ==> run[m].View() == kept[m]) &&
    forall x :: k <= x < |list| ==> list[x].View() == jobs[x]
  }

  /** The job at the iterator is handled; `ok` says whether it stays. */
  method HandleCurrent(cps: seq<Coproc>, run: seq<Result>, i: nat, ghost s: Sched, ghost list: seq<Result>,
                       ghost k: nat,
                       ghost jobs: seq<Job>)
    returns (ok: bool, ghost next: Sched)
    requires Separate(cps) && Views(cps, s.ledgers) && i < |run|
    requires InProgress(run, i, s.kept, list, k, jobs) && ValidJobs(Counts(cps), jobs)
    modifies Tables(cps), run[i]
    ensures next == Step(s, jobs[k]) && Views(cps, next.ledgers)
    ensures next.kept == s.kept + if ok then [run[i].View()] else []
    ensures forall m :: 0 <= m < i ==> run[m].View() == s.kept[m]
    ensures forall x :: k < x < |list| ==> list[x].View() == jobs[x]
  {
    assert run[i] == list[k] && run[i].View() == jobs[k] && ValidJob(Counts(cps), jobs[k]);
    ghost var rest := OthersStay(run, i, s.kept, list, k, jobs);
    ok, next := AssignNext(cps, run[i], s, jobs[k]);
    assert forall rp :: rp in rest ==> rp.View() == old(rp.View());
  }

  /** One iteration of the main loop, with the iterator's step or erase. */
  method Advance(cps: seq<Coproc>, run: seq<Result>, i: nat, ghost s: Sched, ghost list: seq<Result>, ghost k: nat,
                 ghost jobs: seq<Job>)
    returns (run': seq<Result>, i': nat, ghost next: Sched)
    requires Separate(cps) && Views(cps, s.ledgers) && i < |run|
    requires InProgress(run, i, s.kept, list, k, jobs) && ValidJobs(Counts(cps), jobs)
    modifies Tables(cps), list
    ensures next == Step(s, jobs[k]) && Views(cps, next.ledgers)
    ensures InProgress(run', i', next.kept, list, k + 1, jobs)
    ensures |run'| - i' == |run| - i - 1
  {
    assert run[i] == list[k];
    var ok;
    ok, next := HandleCurrent(cps, run, i, s, list, k, jobs);
    if ok {
      KeptInProgress(run, i, s.kept, list, k, jobs);
      run', i' := run, i + 1;
    } else {
      ErasedInProgress(run, i, s.kept, list, k, jobs);
      run', i' := run[..i] + run[i + 1..], i;
    }
  }

  /** The jobs handled before and those to be handled later; the current one is none of them. */
  lemma {:induction false} OthersStay(run: seq<Result>, i: nat, kept: seq<Job>, list: seq<Result>, k: nat,
                                      jobs: seq<Job>)
    returns (rest: set<Result>)
    requires InProgress(run, i, kept, list, k, jobs) && i < |run|
    ensures run[i] !in rest
    ensures forall m :: 0 <= m < i ==> run[m] in rest && run[m].View() == kept[m]
    ensures forall x :: k < x < |list| ==> list[x] in rest && list[x].View() == jobs[x]
  {
    rest := (set m | 0 <= m < i :: run[m]) + set x | k < x < |list| :: list[x];
  }

  lemma {:induction false} KeptInProgress(run: seq<Result>, i: nat, kept: seq<Job>, list: seq<Result>, k: nat,
                                          jobs: seq<Job>)
    requires Aligned(run, i, list, k) && i < |run| && |kept| == i && |jobs| == |list|
    requires forall m :: 0 <= m < i ==> run[m].View() == kept[m]
    requires forall x :: k < x < |list| ==> list[x].View() == jobs[x]
    ensures InProgress(run, i + 1, kept + [run[i].View()], list, k + 1, jobs)
  {
    AlignedKeep(run, i, list, k);
  }

  lemma {:induction false} ErasedInProgress(run: seq<Result>, i: nat, kept: seq<Job>, list: seq<Result>, k: nat,
                                            jobs: seq<Job>)
    requires Aligned(run, i, list, k) && i < |run| && |kept| == i && |jobs| == |list|
    requires forall m :: 0 <= m < i ==> run[m].View() == kept[m]
    requires forall x :: k < x < |list| ==> list[x].View() == jobs[x]
    ensures InProgress(run[..i] + run[i + 1..], i, kept, list, k + 1, jobs)
  {
    AlignedErase(run, i, list, k);
  }

  /** assign_coprocs(): the run list after pruning, with the tables and instances that Run says. */
  method AssignCoprocs(cps: seq<Coproc>, list: seq<Result>, ghost jobs: seq<Job>) returns (run: seq<Result>)
    requires Separate(cps) && NoDuplicates(list)
    requires ListViews(list, jobs) && ValidJobs(Counts(cps), jobs)
    modifies Tables(cps), list
    ensures ListViews(run, After(Counts(cps), jobs, |jobs|).kept)
    ensures Views(cps, After(Counts(cps), jobs, |jobs|).ledgers)
    ensures forall rp :: rp in run ==> rp in list
  {
    FillPendingUsage(cps, list, jobs);
    ghost var s, k := Initial(Counts(cps), jobs), 0;
    assert jobs[..0] == [];
    run := list;
    var i: nat := 0;
    while i < |run|
      invariant k <= |jobs| && s == After(Counts(cps), jobs, k)
      invariant Views(cps, s.ledgers) && InProgress(run, i, s.kept, list, k, jobs)
      decreases |run| - i
    {
      AfterNext(Counts(cps), jobs, k);
      run, i, s := Advance(cps, run, i, s, list, k, jobs);
      k := k + 1;
    }
  }
}
