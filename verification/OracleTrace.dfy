/**
 * Whole runs with one in-flight slot, as the saturation tool observes them: requests
 * arrive behind others, requests behind the heads are canceled or expire, and in the
 * end nothing is queued. The dispatch trace of such a run is the oracle's one complete
 * plan for what was served.
 */
module OracleTrace {
  import opened Prelude
  import opened AdmissionConfig
  import opened Scheduling
  import opened SchedulingInvariant
  import opened Fairness
  import opened FundingCost
  import opened Oracle

  // ---------------------------------------------------------------------
  // A plan does not depend on what stands behind the heads
  // ---------------------------------------------------------------------

  function Requeued(o: Table, t: nat, q: seq<Request>): (r: Table)
    requires t < |o.tenants|
  {
    o.(tenants := o.tenants[t := o.tenants[t].(queue := q)])
  }

  lemma VisitTakesHeads(cfg: ValidatedConfig, o: Table, t: nat)
    requires Proper(cfg, o) && t < |o.tenants|
    ensures Proper(cfg, Visit(cfg, o).table)
    ensures var before, after := o.tenants[t].queue, Visit(cfg, o).table.tenants[t].queue;
      before == after || (before != [] && before[1..] == after)
  {
    hide BoundedAdd;
  }

  /** One visit that leaves `p + x` with a head in `p` would leave `p + y` just so. */
  lemma VisitBehindHead(cfg: ValidatedConfig, o: Table, t: nat, p: seq<Request>, x: seq<Request>, y: seq<Request>)
    returns (before: seq<Request>)
    requires Proper(cfg, o) && t < |o.tenants| && p != []
    requires Visit(cfg, o).table.tenants[t].queue == p + x
    ensures before != [] && o.tenants[t].queue == before + x
    ensures Proper(cfg, Visit(cfg, o).table)
    ensures Visit(cfg, Requeued(o, t, before + y))
         == Outcome(Requeued(Visit(cfg, o).table, t, p + y), Visit(cfg, o).picked)
  {
    hide BoundedAdd;
    VisitTakesHeads(cfg, o, t);
    var q := o.tenants[t].queue;
    if q == p + x {
      before := p;
      QueueStays(cfg, o, t, p, x, y);
    } else {
      before := [q[0]] + p;
      QueueMoves(cfg, o, t, p, x, y);
    }
  }

  lemma QueueStays(cfg: ValidatedConfig, o: Table, t: nat, p: seq<Request>, x: seq<Request>, y: seq<Request>)
    requires Proper(cfg, o) && t < |o.tenants| && p != []
    requires Visit(cfg, o).table.tenants[t].queue == p + x == o.tenants[t].queue
    ensures Visit(cfg, Requeued(o, t, p + y))
         == Outcome(Requeued(Visit(cfg, o).table, t, p + y), Visit(cfg, o).picked)
  {
    hide BoundedAdd;
    assert (p + x)[0] == p[0] == (p + y)[0];
    assert |(p + x)[1..]| < |p + x|;
  }

  lemma QueueMoves(cfg: ValidatedConfig, o: Table, t: nat, p: seq<Request>, x: seq<Request>, y: seq<Request>)
    requires Proper(cfg, o) && t < |o.tenants| && p != [] && o.tenants[t].queue != []
    requires Visit(cfg, o).table.tenants[t].queue == p + x == o.tenants[t].queue[1..]
    ensures o.tenants[t].queue == [o.tenants[t].queue[0]] + p + x
    ensures Visit(cfg, Requeued(o, t, [o.tenants[t].queue[0]] + p + y))
         == Outcome(Requeued(Visit(cfg, o).table, t, p + y), Visit(cfg, o).picked)
  {
    hide BoundedAdd;
    var q := o.tenants[t].queue;
    assert q == [q[0]] + p + x;
    assert ([q[0]] + p + y)[1..] == p + y;
    assert |q[1..]| < |q|;
  }

  lemma {:induction false} VisitsBehindHead(cfg: ValidatedConfig, o: Table, k: nat, t: nat,
                                            p: seq<Request>, x: seq<Request>, y: seq<Request>)
    returns (before: seq<Request>)
    requires Proper(cfg, o) && t < |o.tenants| && p != []
    requires Visits(cfg, o, k).table.tenants[t].queue == p + x
    ensures before != [] && o.tenants[t].queue == before + x
    ensures Visits(cfg, Requeued(o, t, before + y), k)
         == Outcome(Requeued(Visits(cfg, o, k).table, t, p + y), Visits(cfg, o, k).picked)
    decreases k
  {
    hide Visit;
    if k == 0 {
      before := p;
    } else {
      var last := VisitBehindHead(cfg, Visits(cfg, o, k - 1).table, t, p, x, y);
      before := VisitsBehindHead(cfg, o, k - 1, t, last, x, y);
    }
  }

  /** Being half-way through a visit does not depend on it either. */
  lemma TracksBehindHead(cfg: ValidatedConfig, start: Table, end: Table, k: nat, trace: seq<Request>, half: bool,
                         t: nat, p: seq<Request>, x: seq<Request>, y: seq<Request>)
    returns (before: seq<Request>)
    requires Proper(cfg, start) && Proper(cfg, end) && Tracks(cfg, start, end, k, trace, half)
    requires t < |end.tenants| && p != [] && end.tenants[t].queue == p + x
    ensures before != [] && start.tenants[t].queue == before + x
    ensures Tracks(cfg, Requeued(start, t, before + y), Requeued(end, t, p + y), k, trace, half)
  {
    hide Visits, BoundedAdd;
    before := VisitsBehindHead(cfg, start, k, t, p, x, y);
  }

  // ---------------------------------------------------------------------
  // Runs
  // ---------------------------------------------------------------------

  /** Arrivals are turned away or join a queue that waits; only entries behind the heads leave. */
  ghost predicate BehindHeads(cfg: ValidatedConfig, s: State, e: Event)
    requires Enabled(cfg, s, e)
  {
    match e
    case Admit(sub) => AdmitRefusal(cfg, s, sub).Some? || s.tenants[cfg.tenantByID[sub.tenantID]].queue != []
    case Drop(r, _) => s.tenants[r.tenant].queue[0] != r
    case _ => true
  }

  ghost predicate HeadsStand(cfg: ValidatedConfig, s: State, es: seq<Event>)
    requires Legal(cfg, s, es)
    decreases |es|
  {
    es == [] ||
    (HeadsStand(cfg, s, es[..|es| - 1]) && BehindHeads(cfg, Run(cfg, s, es[..|es| - 1]), es[|es| - 1]))
  }

  function Of(trace: seq<Request>, t: nat): (r: seq<Request>) {
    if trace == [] then [] else
      var last := trace[|trace| - 1];
      Of(trace[..|trace| - 1], t) + (if last.tenant == t then [last] else [])
  }

  /**
   * The table as if its queues had held from the start what the run serves or leaves
   * queued: what arrives later is there already and what is removed never came.
   */
  ghost function Foreseen(cfg: ValidatedConfig, s: State, es: seq<Event>): (r: Table)
    requires Legal(cfg, s, es) && |Run(cfg, s, es).tenants| == |s.tenants|
  {
    Expected(View(s), DispatchTrace(es), Run(cfg, s, es).tenants)
  }

  function Expected(o: Table, trace: seq<Request>, ts: seq<Tenant>): (r: Table)
    requires |ts| == |o.tenants|
  {
    o.(tenants := seq(|ts|, t requires 0 <= t < |ts| => o.tenants[t].(queue := Of(trace, t) + ts[t].queue)))
  }

  lemma ExpectedRequeued(o: Table, trace: seq<Request>, ts: seq<Tenant>, t: nat, changed: Tenant)
    requires |ts| == |o.tenants| && t < |ts|
    ensures Expected(o, trace, ts[t := changed]) == Requeued(Expected(o, trace, ts), t, Of(trace, t) + changed.queue)
  {
  }

  lemma ExpectedSameQueues(o: Table, trace: seq<Request>, ts: seq<Tenant>, us: seq<Tenant>)
    requires |ts| == |o.tenants| == |us| && forall t :: 0 <= t < |ts| ==> ts[t].queue == us[t].queue
    ensures Expected(o, trace, ts) == Expected(o, trace, us)
  {
  }

  /** The head that is dispatched moves from the queue to the trace. */
  lemma ExpectedDispatch(o: Table, trace: seq<Request>, ts: seq<Tenant>, us: seq<Tenant>, r: Request)
    requires |ts| == |o.tenants| == |us| && r.tenant < |ts|
    requires ts[r.tenant].queue == [r] + us[r.tenant].queue
    requires forall t :: 0 <= t < |ts| && t != r.tenant ==> ts[t].queue == us[t].queue
    ensures Expected(o, trace, ts) == Expected(o, trace + [r], us)
  {
    assert (trace + [r])[..|trace|] == trace;
    forall t | 0 <= t < |ts| ensures Of(trace, t) + ts[t].queue == Of(trace + [r], t) + us[t].queue {
    }
  }

  /** Events that neither add nor remove requests leave the foreseen table alone. */
  lemma ForeseenStays(cfg: ValidatedConfig, o: Table, trace: seq<Request>, s: State, e: Event)
    requires Shape(cfg, s) && Enabled(cfg, s, e) && |o.tenants| == |s.tenants|
    requires !e.Admit? && !e.Drop?
    ensures |Apply(cfg, s, e).tenants| == |s.tenants|
    ensures Expected(o, trace + (if e.Dispatch? then [e.request] else []), Apply(cfg, s, e).tenants)
         == Expected(o, trace, s.tenants)
  {
    hide QueueLoad, TotalLoad, TenantLoad, FitsGlobal, FitsTenant, GlobalFull, Alive, BoundedAdd, Of, Expected;
    var after := Apply(cfg, s, e).tenants;
    if e.Dispatch? {
      var r := e.request;
      WithoutHead(s.tenants[r.tenant].queue);
      assert after[r.tenant].queue == s.tenants[r.tenant].queue[1..];
      ExpectedDispatch(o, trace, s.tenants, after, r);
    } else {
      assert trace + [] == trace;
      ExpectedSameQueues(o, trace, after, s.tenants);
    }
  }

  // ---------------------------------------------------------------------
  // Arrivals and removals behind the heads
  // ---------------------------------------------------------------------

  lemma AdmitRequeues(cfg: ValidatedConfig, s: State, sub: Submission) returns (r: Request, t: nat)
    requires Shape(cfg, s) && Enabled(cfg, s, Admit(sub)) && AdmitRefusal(cfg, s, sub).None?
    ensures t == cfg.tenantByID[sub.tenantID] < |s.tenants|
    ensures View(Apply(cfg, s, Admit(sub))) == Requeued(View(s), t, s.tenants[t].queue + [r])
  {
    hide QueueLoad, TotalLoad, QueueLimitFailure;
    t := cfg.tenantByID[sub.tenantID];
    r := Request(sub.id, t, sub.bytes, sub.work, sub.deadline, sub.clientDeadline, s.sequence + 1);
  }

  lemma RefusalKeepsView(cfg: ValidatedConfig, s: State, sub: Submission)
    requires Enabled(cfg, s, Admit(sub)) && AdmitRefusal(cfg, s, sub).Some?
    ensures View(Apply(cfg, s, Admit(sub))) == View(s)
  {
    hide QueueLoad, TotalLoad, QueueLimitFailure;
  }

  lemma {:induction false} WithoutSplit(q: seq<Request>, r: Request) returns (p: seq<Request>, z: seq<Request>)
    requires r in q
    ensures q == p + [r] + z && Without(q, r) == p + z
    ensures q[0] != r ==> p != []
  {
    if q[0] == r {
      p, z := [], q[1..];
    } else {
      p, z := WithoutSplit(q[1..], r);
      assert [q[0]] + (p + z) == ([q[0]] + p) + z;
      assert q == [q[0]] + q[1..];
      p := [q[0]] + p;
    }
  }

  lemma DropRequeues(cfg: ValidatedConfig, s: State, r: Request, reason: Reason)
    returns (p: seq<Request>, z: seq<Request>)
    requires Shape(cfg, s) && Enabled(cfg, s, Drop(r, reason)) && s.tenants[r.tenant].queue[0] != r
    ensures r.tenant < |s.tenants| && p != [] && s.tenants[r.tenant].queue == p + ([r] + z)
    ensures View(Apply(cfg, s, Drop(r, reason))) == Requeued(View(s), r.tenant, p + z)
  {
    hide QueueLoad, TotalLoad;
    var q := s.tenants[r.tenant].queue;
    p, z := WithoutSplit(q, r);
    assert p + [r] + z == p + ([r] + z);
    assert (p + z)[0] == p[0];
  }

  /** Changing a queue behind its head changes the foreseen table in the same place. */
  lemma ForeseenRequeued(cfg: ValidatedConfig, o: Table, s: State, k: nat, trace: seq<Request>, half: bool, t: nat,
                         p: seq<Request>, x: seq<Request>, y: seq<Request>)
    requires Proper(cfg, View(s)) && |o.tenants| == |s.tenants| && o.cursor < |o.tenants|
    requires Tracks(cfg, Expected(o, trace, s.tenants), View(s), k, trace, half)
    requires t < |s.tenants| && p != [] && s.tenants[t].queue == p + x
    ensures Tracks(cfg, Expected(o, trace, Requeued(View(s), t, p + y).tenants), Requeued(View(s), t, p + y), k,
      trace, half)
  {
    hide Tracks;
    var start := Expected(o, trace, s.tenants);
    var before := TracksBehindHead(cfg, start, View(s), k, trace, half, t, p, x, y);
    assert start.tenants[t].queue == (Of(trace, t) + p) + x;
    assert before == start.tenants[t].queue[..|before|] == Of(trace, t) + p;
    assert before + y == Of(trace, t) + (p + y);
    ExpectedRequeued(o, trace, s.tenants, t, s.tenants[t].(queue := p + y));
  }

  /** No tenant limit binds and no empty table is rewound. */
  predicate Calm(e: Event) { !e.Block? && !e.Rewind? }

  ghost predicate AllCalm(es: seq<Event>) {
    forall i :: 0 <= i < |es| ==> Calm(es[i])
  }

  lemma ArrivalStep(cfg: ValidatedConfig, o: Table, s: State, e: Event, k: nat, trace: seq<Request>, half: bool)
    requires Shape(cfg, s) && Enabled(cfg, s, e) && e.Admit? && BehindHeads(cfg, s, e)
    requires Proper(cfg, View(s)) && |o.tenants| == |s.tenants| && o.cursor < |o.tenants|
    requires Tracks(cfg, Expected(o, trace, s.tenants), View(s), k, trace, half)
    ensures var after := Apply(cfg, s, e);
      && Proper(cfg, View(after)) && |after.tenants| == |s.tenants|
      && Tracks(cfg, Expected(o, trace, after.tenants), View(after), k, trace, half)
  {
    hide Tracks, Enabled, Apply, Expected, AdmitRefusal, Shape;
    if AdmitRefusal(cfg, s, e.sub).Some? {
      RefusalKeepsView(cfg, s, e.sub);
    } else {
      var r, t := AdmitRequeues(cfg, s, e.sub);
      var q := s.tenants[t].queue;
      assert q + [] == q;
      ForeseenRequeued(cfg, o, s, k, trace, half, t, q, [], [r]);
    }
  }

  lemma RemovalStep(cfg: ValidatedConfig, o: Table, s: State, e: Event, k: nat, trace: seq<Request>, half: bool)
    requires Shape(cfg, s) && Enabled(cfg, s, e) && e.Drop? && BehindHeads(cfg, s, e)
    requires Proper(cfg, View(s)) && |o.tenants| == |s.tenants| && o.cursor < |o.tenants|
    requires Tracks(cfg, Expected(o, trace, s.tenants), View(s), k, trace, half)
    ensures var after := Apply(cfg, s, e);
      && Proper(cfg, View(after)) && |after.tenants| == |s.tenants|
      && Tracks(cfg, Expected(o, trace, after.tenants), View(after), k, trace, half)
  {
    hide Tracks, Enabled, Apply, Expected, Shape;
    var r := e.dropped;
    var p, z := DropRequeues(cfg, s, r, e.reason);
    ForeseenRequeued(cfg, o, s, k, trace, half, r.tenant, p, [r] + z, z);
  }

  /**
   * Until something blocks or the table empties, the scheduler stands where the
   * oracle stands that knew from the start what this run would serve.
   */
  lemma {:induction false} TraceFollowsForesight(cfg: ValidatedConfig, s: State, es: seq<Event>) returns (k: nat)
    requires Sound(cfg) && Inv(cfg, s) && Legal(cfg, s, es) && HeadsStand(cfg, s, es) && AllCalm(es)
    ensures Proper(cfg, View(s)) && Proper(cfg, View(Run(cfg, s, es)))
    ensures Tracks(cfg, Foreseen(cfg, s, es), View(Run(cfg, s, es)), k, DispatchTrace(es), Half(es))
    decreases |es|
  {
    hide Sound, Inv, Enabled, Apply, Tracks, Expected, Half, BehindHeads, Shape;
    ProperView(cfg, s);
    if es == [] {
      k := 0;
      NothingForeseen(View(s));
      TracksStart(cfg, View(s));
      assert !Half([]) by { NoHalf(); }
    } else {
      var n := |es| - 1;
      var mid, e := Run(cfg, s, es[..n]), es[n];
      var j := TraceFollowsForesight(cfg, s, es[..n]);
      RunInv(cfg, s, es[..n]);
      RunInv(cfg, s, es);
      ProperView(cfg, mid);
      ProperView(cfg, Run(cfg, s, es));
      HalfStep(es);
      var trace, half := DispatchTrace(es[..n]), Half(es[..n]);
      assert Calm(e);
      if e.Admit? {
        ArrivalStep(cfg, View(s), mid, e, j, trace, half);
        assert trace + [] == trace;
        k := j;
      } else if e.Drop? {
        RemovalStep(cfg, View(s), mid, e, j, trace, half);
        assert trace + [] == trace;
        k := j;
      } else {
        ForeseenStays(cfg, View(s), trace, mid, e);
        ProperExpected(cfg, View(s), trace, mid.tenants);
        k := TracksStep(cfg, Expected(View(s), trace, mid.tenants), mid, e, j, trace, half);
      }
    }
  }

  lemma ProperExpected(cfg: ValidatedConfig, o: Table, trace: seq<Request>, ts: seq<Tenant>)
    requires Proper(cfg, o) && |ts| == |o.tenants|
    ensures Proper(cfg, Expected(o, trace, ts))
  {
  }

  lemma NothingForeseen(o: Table)
    ensures Expected(o, [], o.tenants) == o
  {
    forall t | 0 <= t < |o.tenants| ensures Of([], t) + o.tenants[t].queue == o.tenants[t].queue {
    }
    assert Expected(o, [], o.tenants).tenants == o.tenants;
  }

  lemma NoHalf()
    ensures !Half([])
  {
  }

  lemma HalfStep(es: seq<Event>)
    requires es != []
    ensures Half(es) == if Moves(es[|es| - 1]) then es[|es| - 1].Fund? else Half(es[..|es| - 1])
  {
  }

  // ---------------------------------------------------------------------
  // Runs that serve everything
  // ---------------------------------------------------------------------

  lemma EmptyQueues(s: State)
    requires Remaining(s.tenants) == 0
    ensures forall t :: 0 <= t < |s.tenants| ==> s.tenants[t].queue == []
  {
    hide TotalLoad;
    NothingQueued(s.tenants);
  }

  lemma WorkLeft(s: State, t: nat)
    requires t < |s.tenants| && s.tenants[t].queue != []
    ensures Remaining(s.tenants) > 0
  {
    hide TotalLoad;
    NothingQueued(s.tenants);
  }

  /** An empty table stays empty, because arrivals only join queues that wait. */
  lemma EmptyStays(cfg: ValidatedConfig, s: State, e: Event)
    requires Shape(cfg, s) && Enabled(cfg, s, e) && BehindHeads(cfg, s, e) && Remaining(s.tenants) == 0
    ensures Remaining(Apply(cfg, s, e).tenants) == 0 && !e.Dispatch?
  {
    hide QueueLoad, TotalLoad, TenantLoad, FitsGlobal, FitsTenant, GlobalFull, Alive, BoundedAdd, QueueLimitFailure;
    EmptyQueues(s);
    var after := Apply(cfg, s, e).tenants;
    forall t | 0 <= t < |after| ensures after[t].queue == [] {
    }
    NothingQueued(after);
  }

  /** Only a dispatch empties the table. */
  lemma OnlyDispatchEmpties(cfg: ValidatedConfig, s: State, e: Event)
    requires Shape(cfg, s) && Enabled(cfg, s, e) && BehindHeads(cfg, s, e)
    requires Remaining(s.tenants) > 0 && Remaining(Apply(cfg, s, e).tenants) == 0
    ensures e.Dispatch?
  {
    hide Enabled, Apply, AdmitRefusal, Remaining, TotalLoad, Shape;
    var after := Apply(cfg, s, e);
    if e.Admit? {
      if AdmitRefusal(cfg, s, e.sub).Some? {
        RefusalKeepsView(cfg, s, e.sub);
      } else {
        var r, t := AdmitRequeues(cfg, s, e.sub);
        WorkLeft(after, t);
      }
      assert false;
    } else if e.Drop? {
      var p, z := DropRequeues(cfg, s, e.dropped, e.reason);
      WorkLeft(after, e.dropped.tenant);
      assert false;
    } else if !e.Dispatch? {
      KeepsRemaining(cfg, s, e);
      assert false;
    }
  }

  /** With one slot nothing but a rewind of an empty table disturbs the oracle's order. */
  lemma {:induction false} CalmWhileQueued(cfg: ValidatedConfig, s: State, es: seq<Event>)
    requires Sound(cfg) && Inv(cfg, s) && cfg.globalInflight.count == 1
    requires Legal(cfg, s, es) && HeadsStand(cfg, s, es) && Remaining(Run(cfg, s, es).tenants) > 0
    ensures AllCalm(es)
    decreases |es|
  {
    hide Sound, Inv, Enabled, Apply, Remaining, BehindHeads, Shape;
    if es != [] {
      var n := |es| - 1;
      var mid, e := Run(cfg, s, es[..n]), es[n];
      RunInv(cfg, s, es[..n]);
      ProperView(cfg, mid);
      if Remaining(mid.tenants) == 0 {
        EmptyStays(cfg, mid, e);
        assert false;
      }
      CalmWhileQueued(cfg, s, es[..n]);
      RewindGuard(cfg, mid, e);
      OneSlotNeverBlocks(cfg, mid, e);
    }
  }

  /** The run up to the dispatch that empties the table holds the whole trace. */
  lemma {:induction false} LastService(cfg: ValidatedConfig, s: State, es: seq<Event>) returns (n: nat)
    requires Sound(cfg) && Inv(cfg, s) && cfg.globalInflight.count == 1
    requires Legal(cfg, s, es) && HeadsStand(cfg, s, es) && Remaining(Run(cfg, s, es).tenants) == 0
    ensures n <= |es| && Legal(cfg, s, es[..n]) && HeadsStand(cfg, s, es[..n]) && AllCalm(es[..n])
    ensures Remaining(Run(cfg, s, es[..n]).tenants) == 0 && !Half(es[..n])
    ensures DispatchTrace(es[..n]) == DispatchTrace(es)
    decreases |es|
  {
    hide Sound, Inv, Enabled, Apply, Remaining, BehindHeads, Shape, Half;
    if es == [] {
      n := 0;
      NoHalf();
    } else {
      var k := |es| - 1;
      var mid, e := Run(cfg, s, es[..k]), es[k];
      RunInv(cfg, s, es[..k]);
      ProperView(cfg, mid);
      if Remaining(mid.tenants) == 0 {
        n := LastService(cfg, s, es[..k]);
        EmptyStays(cfg, mid, e);
        assert es[..k][..n] == es[..n];
        assert DispatchTrace(es[..k]) + [] == DispatchTrace(es[..k]);
      } else {
        n := |es|;
        assert es[..n] == es;
        CalmWhileQueued(cfg, s, es[..k]);
        OnlyDispatchEmpties(cfg, mid, e);
        HalfStep(es);
        assert Calm(e);
      }
    }
  }

  lemma ExpectedEmpty(o: Table, trace: seq<Request>, s: State, v: State)
    requires |s.tenants| == |o.tenants| == |v.tenants|
    requires Remaining(s.tenants) == 0 == Remaining(v.tenants)
    ensures Expected(o, trace, s.tenants) == Expected(o, trace, v.tenants)
  {
    hide Expected, Remaining;
    EmptyQueues(s);
    EmptyQueues(v);
    ExpectedSameQueues(o, trace, s.tenants, v.tenants);
  }

  lemma TracksComplete(cfg: ValidatedConfig, start: Table, end: Table, k: nat, trace: seq<Request>)
    requires Proper(cfg, start) && Proper(cfg, end) && Tracks(cfg, start, end, k, trace, false)
    requires Remaining(end.tenants) == 0
    ensures CompletePlan(cfg, start, trace)
  {
    hide Visits, Remaining;
  }

  lemma PlanIsUnique(cfg: ValidatedConfig, o: Table, p: seq<Request>, q: seq<Request>)
    requires Proper(cfg, o) && CompletePlan(cfg, o, p) && CompletePlan(cfg, o, q)
    ensures p == q
  {
    hide Visits, Remaining;
    var j: nat :| Visits(cfg, o, j).picked == p && Remaining(Visits(cfg, o, j).table.tenants) == 0;
    var k: nat :| Visits(cfg, o, k).picked == q && Remaining(Visits(cfg, o, k).table.tenants) == 0;
    CompletePlanIsUnique(cfg, o, j, k);
  }

  /**
   * With one in-flight slot, every run that serves all it queues has the oracle's
   * plan as its dispatch trace, and that plan only: requests may arrive behind others
   * and leave from behind the heads at any point of the run.
   */
  lemma TraceIsThePlan(cfg: ValidatedConfig, s: State, es: seq<Event>)
    requires Sound(cfg) && Inv(cfg, s) && cfg.globalInflight.count == 1
    requires Legal(cfg, s, es) && HeadsStand(cfg, s, es) && Remaining(Run(cfg, s, es).tenants) == 0
    ensures |Run(cfg, s, es).tenants| == |s.tenants| && Proper(cfg, Foreseen(cfg, s, es))
    ensures forall plan :: CompletePlan(cfg, Foreseen(cfg, s, es), plan) <==> plan == DispatchTrace(es)
  {
    hide Sound, Inv, Legal, Run, Tracks, Expected, HeadsStand, Remaining, CompletePlan, Half;
    var n := LastService(cfg, s, es);
    var k := TraceFollowsForesight(cfg, s, es[..n]);
    RunInv(cfg, s, es);
    ProperView(cfg, Run(cfg, s, es));
    ExpectedEmpty(View(s), DispatchTrace(es), Run(cfg, s, es), Run(cfg, s, es[..n]));
    var o := Foreseen(cfg, s, es);
    ProperExpected(cfg, View(s), DispatchTrace(es), Run(cfg, s, es).tenants);
    TracksComplete(cfg, o, View(Run(cfg, s, es[..n])), k, DispatchTrace(es));
    forall plan | CompletePlan(cfg, o, plan) ensures plan == DispatchTrace(es) {
      PlanIsUnique(cfg, o, plan, DispatchTrace(es));
    }
  }

  /** No request arrives and none is removed. */
  ghost predicate Closed(es: seq<Event>) {
    forall i :: 0 <= i < |es| ==> !es[i].Admit? && !es[i].Drop?
  }

  lemma {:induction false} ClosedForesight(cfg: ValidatedConfig, s: State, es: seq<Event>)
    requires Sound(cfg) && Inv(cfg, s) && Legal(cfg, s, es) && Closed(es)
    ensures HeadsStand(cfg, s, es) && |Run(cfg, s, es).tenants| == |s.tenants| && Foreseen(cfg, s, es) == View(s)
    decreases |es|
  {
    hide Sound, Inv, Enabled, Apply, Expected, Shape;
    if es == [] {
      NothingForeseen(View(s));
    } else {
      var n := |es| - 1;
      ClosedForesight(cfg, s, es[..n]);
      var mid := Run(cfg, s, es[..n]);
      RunInv(cfg, s, es[..n]);
      ProperView(cfg, mid);
      assert !es[n].Admit? && !es[n].Drop?;
      ForeseenStays(cfg, View(s), DispatchTrace(es[..n]), mid, es[n]);
    }
  }

  /** From a loaded state without arrivals and removals the plan is that of the state's own queues. */
  lemma LoadedTraceIsThePlan(cfg: ValidatedConfig, s: State, es: seq<Event>)
    requires Sound(cfg) && Inv(cfg, s) && cfg.globalInflight.count == 1
    requires Legal(cfg, s, es) && Closed(es) && Remaining(Run(cfg, s, es).tenants) == 0
    ensures Proper(cfg, View(s))
    ensures forall plan :: CompletePlan(cfg, View(s), plan) <==> plan == DispatchTrace(es)
  {
    hide Sound, Inv, Legal, Run, HeadsStand, Remaining, CompletePlan, Foreseen, Closed;
    ClosedForesight(cfg, s, es);
    TraceIsThePlan(cfg, s, es);
  }
}
