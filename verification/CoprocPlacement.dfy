/** Where new GPU jobs go, told on the two tables alone (client/coproc_sched.cpp:158-282). */
module CoprocPlacement {
  import opened CoprocSched
  import opened Wrappers

  /* ---------- shares ---------- */

  /** A job takes as few instances as can hold it, and charges them its usage in equal shares of at most one
      instance each. */
  lemma {:induction false} ChargeIsUsage(u: real)
    requires ValidUsage(u)
    ensures NumInstances(u) as real - 1.0 < u <= NumInstances(u) as real
    ensures NumInstances(u) as real * Share(u) == u && 0.0 < Share(u) <= 1.0
  {
    if u >= 1.0 {
      assert NumInstances(u) as real == u && Share(u) == 1.0;
    }
  }

  /* ---------- a part of an instance ---------- */

  /** A fractional job joins the lowest usable instance that others use or have reserved, and that has room
      for it beside what is used and what is reserved. */
  lemma {:induction false} FractionalJoins(l: Ledger, job: Job, i: nat)
    requires 0.0 < job.usage < 1.0 && !job.running && i < |l.usage| == |l.pending| && i in job.usable
    requires (l.usage[i] != 0.0 || l.pending[i] != 0.0) && l.usage[i] + l.pending[i] + job.usage <= 1.0
    requires forall k: nat :: k < i && k in job.usable && (l.usage[k] != 0.0 || l.pending[k] != 0.0) ==>
      l.usage[k] + l.pending[k] + job.usage > 1.0
    ensures Place(l, job) == Some([i])
  {
    assert Shareable(l, job)(i);
    FractionalPlaces(l, job, i);
  }

  /** If there is none, it opens the lowest usable instance without usage. */
  lemma {:induction false} FractionalOpens(l: Ledger, job: Job, i: nat)
    requires 0.0 < job.usage < 1.0 && !job.running && i < |l.usage| == |l.pending| && i in job.usable
    requires forall k: nat :: k < |l.usage| && k in job.usable && (l.usage[k] != 0.0 || l.pending[k] != 0.0) ==>
      l.usage[k] + l.pending[k] + job.usage > 1.0
    requires l.usage[i] == 0.0 && forall k: nat :: k < i && k in job.usable ==> l.usage[k] != 0.0
    ensures Place(l, job) == Some([i])
  {
    assert !Shareable(l, job)(i) && Free(l, job)(i);
    FractionalPlaces(l, job, i);
  }

  /** It never opens an idle instance while one that others use or have reserved has room. */
  lemma {:induction false} NoIdleIsOpened(l: Ledger, job: Job, i: nat)
    requires 0.0 < job.usage < 1.0 && !job.running && i < |l.usage| == |l.pending| && i in job.usable
    requires (l.usage[i] != 0.0 || l.pending[i] != 0.0) && l.usage[i] + l.pending[i] + job.usage <= 1.0
    ensures Place(l, job).Some? && |Place(l, job).value| == 1
    ensures var j := Place(l, job).value[0];
      j <= i && (l.usage[j] != 0.0 || l.pending[j] != 0.0) && l.usage[j] + l.pending[j] + job.usage <= 1.0
  {
    assert Shareable(l, job)(i);
  }

  /** The example of a reserved instance that a new job joins although the first one is idle. */
  lemma {:induction false} SomeReservedIsJoined()
    ensures Place(Ledger([0.0, 0.0], [0.0, 0.5]), Job(1, 0.4, false, {0, 1}, [])) == Some([1])
  {
    FractionalJoins(Ledger([0.0, 0.0], [0.0, 0.5]), Job(1, 0.4, false, {0, 1}, []), 1);
  }

  /* ---------- whole instances ---------- */

  /** Unreserved instances come first, and lower ones before higher ones. */
  predicate Before(l: Ledger, j: nat, k: nat)
    requires j < |l.pending| && k < |l.pending|
  {
    if (l.pending[j] == 0.0) == (l.pending[k] == 0.0) then j < k else l.pending[j] == 0.0
  }

  lemma {:induction false} CandidatesOrdered(l: Ledger, job: Job, a: nat, b: nat)
    requires |l.usage| == |l.pending| && a < b < |Candidates(l, job)|
    ensures Candidates(l, job)[a] < |l.pending| && Candidates(l, job)[b] < |l.pending|
    ensures Before(l, Candidates(l, job)[a], Candidates(l, job)[b])
  {
    CandidateShape(l, job, a);
    CandidateShape(l, job, b);
  }

  lemma {:induction false} CandidatesAreFree(l: Ledger, job: Job, k: nat)
    requires |l.usage| == |l.pending|
    ensures k in Candidates(l, job) <==> k < |l.usage| && k in job.usable && l.usage[k] == 0.0
  {
    assert k in Candidates(l, job) <==> k in Below(|l.usage|, Idle(l, job)) || k in Below(|l.usage|, Reserved(l, job));
  }

  /** A job for whole instances gets them in this order: at each place the first one among the usable
      instances without usage that have not been given to it before. */
  lemma {:induction false} IntegerTakesFirst(l: Ledger, job: Job, a: nat, k: nat)
    requires ValidUsage(job.usage) && !job.running && job.usage >= 1.0 && k < |l.usage| == |l.pending|
    requires Place(l, job).Some? && a < |Place(l, job).value|
    ensures var idx := Place(l, job).value;
      idx[a] < |l.usage| && idx[a] in job.usable && l.usage[idx[a]] == 0.0 &&
      (k in job.usable && l.usage[k] == 0.0 && k !in idx[..a + 1] ==> Before(l, idx[a], k))
  {
    var cs := Candidates(l, job);
    assert Place(l, job).value[a] == cs[a] && cs[a] in cs;
    assert Place(l, job).value[..a + 1] == cs[..a + 1];
    CandidatesAreFree(l, job, cs[a]);
    CandidatesAreFree(l, job, k);
    if k in cs && k !in cs[..a + 1] {
      assert cs == cs[..a + 1] + cs[a + 1..];
      var b :| 0 <= b < |cs[a + 1..]| && cs[a + 1..][b] == k;
      CandidatesOrdered(l, job, a, a + 1 + b);
    }
  }

  /** It gets some if and only if there are enough such instances, however they are counted. */
  lemma {:induction false} IntegerPlacedIff(l: Ledger, job: Job, free: set<nat>)
    requires ValidUsage(job.usage) && !job.running && job.usage >= 1.0 && |l.usage| == |l.pending|
    requires forall i: nat :: i in free <==> i < |l.usage| && i in job.usable && l.usage[i] == 0.0
    ensures Place(l, job).Some? <==> job.usage <= |free| as real
  {
    IntegerSucceedsIff(l, job);
    assert free == SetBelow(|l.usage|, Free(l, job));
  }
}
