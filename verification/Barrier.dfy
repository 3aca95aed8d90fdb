/**
 * The funded-head barrier: once credit has been granted to the request at the
 * cursor, no other request overtakes it while it waits for global capacity.
 */
module Barrier {
  import opened Prelude
  import opened AdmissionConfig
  import opened Scheduling
  import opened SchedulingInvariant
  import opened Fairness
  import opened FundingCost

  /** `r` heads the queue at the cursor, its visit is open and its credit suffices. */
  ghost predicate Reserved(cfg: ValidatedConfig, s: State, r: Request) {
    && HeadAt(cfg, s, r.tenant)
    && s.tenants[r.tenant].queue[0] == r
    && s.tenants[r.tenant].visitOpen
    && r.work <= s.tenants[r.tenant].deficit
    && FitsTenant(cfg, s, r)
  }

  ghost predicate Stays(es: seq<Event>, r: Request) {
    forall i :: 0 <= i < |es| ==> !Departs(es[i], r)
  }

  ghost predicate OwnLimitBlocksAll(cfg: ValidatedConfig, s: State)
    requires |s.tenants| == |cfg.tenants|
  {
    forall t :: 0 <= t < |s.tenants| && HeadPlaced(s, t) ==> !FitsTenant(cfg, s, s.tenants[t].queue[0])
  }

  predicate HeadPlaced(s: State, t: nat)
    requires t < |s.tenants|
  {
    s.tenants[t].queue != [] && s.tenants[t].queue[0].tenant == t
  }

  /**
   * The reasons the pump may stop: nothing is queued, global capacity is used up
   * exactly, the reserved head does not fit what is left, or every tenant with
   * work is at its own in-flight limit.
   */
  ghost predicate WorkConserving(cfg: ValidatedConfig, s: State)
    requires |s.tenants| == |cfg.tenants|
  {
    || TotalLoad(s.tenants).count == 0
    || GlobalFull(cfg, s)
    || (exists r :: Reserved(cfg, s, r) && !FitsGlobal(cfg, s, r))
    || OwnLimitBlocksAll(cfg, s)
  }

  /** The head `r` of tenant `t`'s queue would take its tenant over an in-flight limit. */
  ghost predicate OverOwnLimit(cfg: ValidatedConfig, s: State, t: nat)
    requires t < |s.tenants| == |cfg.tenants| && s.tenants[t].queue != []
  {
    || TenantLoad(s.inflight, t).count + 1 > cfg.tenants[t].inflight.count
    || TenantLoad(s.inflight, t).work + s.tenants[t].queue[0].work > cfg.tenants[t].inflight.work
  }

  lemma HeadsPlaced(cfg: ValidatedConfig, s: State, t: nat)
    requires Shape(cfg, s) && t < |s.tenants|
    ensures HeadPlaced(s, t) <==> s.tenants[t].queue != []
  {
    if s.tenants[t].queue != [] {
      assert QueueOk(cfg, t, s.tenants[t].queue, s.sequence);
    }
  }

  /**
   * In every reachable state the reasons to stop are, in numbers: empty queues, as
   * many or as much in flight as allowed, a paid-for head at the cursor that would
   * exceed the global limits, or heads that would all exceed their tenants' limits.
   */
  lemma StopReasonsExactly(cfg: ValidatedConfig, s: State)
    requires Inv(cfg, s)
    ensures |s.tenants| == |cfg.tenants| && s.cursor < |s.tenants|
    ensures WorkConserving(cfg, s) <==>
      || (forall t :: 0 <= t < |s.tenants| ==> s.tenants[t].queue == [])
      || |s.inflight| == cfg.globalInflight.count || QueueLoad(s.inflight).work == cfg.globalInflight.work
      || (var here := s.tenants[s.cursor];
          && here.queue != [] && here.visitOpen && here.queue[0].work <= here.deficit && !OverOwnLimit(cfg, s, s.cursor)
          && (|s.inflight| + 1 > cfg.globalInflight.count
              || QueueLoad(s.inflight).work + here.queue[0].work > cfg.globalInflight.work))
      || (forall t :: 0 <= t < |s.tenants| && s.tenants[t].queue != [] ==> OverOwnLimit(cfg, s, t))
  {
    hide QueueLoad, TotalLoad, TenantLoad, Limits, Identity, CreditOk, QueueOk, RequestOk;
    QueueLoadCount(s.inflight);
    NothingQueued(s.tenants);
    forall t | 0 <= t < |s.tenants| ensures HeadPlaced(s, t) <==> s.tenants[t].queue != [] {
      HeadsPlaced(cfg, s, t);
    }
    var here := s.tenants[s.cursor];
    if here.queue != [] {
      var r := here.queue[0];
      assert HeadPlaced(s, s.cursor);
      assert Reserved(cfg, s, r) <==> here.visitOpen && r.work <= here.deficit && !OverOwnLimit(cfg, s, s.cursor);
    }
  }

  /**
   * A head is dispatched exactly when the owner accepts, its visit is open and paid
   * for, it is alive, and with it neither its tenant's nor the global in-flight count
   * and work pass their limits, of which the global ones are not used up already.
   */
  lemma DispatchExactly(cfg: ValidatedConfig, s: State, r: Request)
    requires Inv(cfg, s)
    ensures Enabled(cfg, s, Dispatch(r)) <==>
      && s.accepting && r.tenant == s.cursor < |s.tenants| == |cfg.tenants|
      && s.tenants[s.cursor].queue != [] && s.tenants[s.cursor].queue[0] == r
      && s.tenants[s.cursor].visitOpen && r.work <= s.tenants[s.cursor].deficit
      && r.id !in s.canceled && s.now < r.deadline
      && TenantLoad(s.inflight, s.cursor).count < cfg.tenants[s.cursor].inflight.count
      && TenantLoad(s.inflight, s.cursor).work + r.work <= cfg.tenants[s.cursor].inflight.work
      && |s.inflight| < cfg.globalInflight.count
      && QueueLoad(s.inflight).work + r.work <= cfg.globalInflight.work
      && QueueLoad(s.inflight).work != cfg.globalInflight.work
  {
    hide TotalLoad, TenantLoad, Limits, Identity, CreditOk, QueueOk;
    QueueLoadCount(s.inflight);
    if s.cursor < |s.tenants| && s.tenants[s.cursor].queue != [] {
      HeadsPlaced(cfg, s, s.cursor);
    }
  }

  lemma QueuedSomewhere(s: State, t: nat)
    requires t < |s.tenants| && s.tenants[t].queue != []
    ensures TotalLoad(s.tenants).count > 0
  {
    hide TotalLoad;
    NothingQueued(s.tenants);
  }

  /** Dropping a later entry leaves the head of a queue in place. */
  lemma ReservedDrop(cfg: ValidatedConfig, s: State, x: Request, reason: Reason, r: Request)
    requires Inv(cfg, s) && Enabled(cfg, s, Drop(x, reason)) && Reserved(cfg, s, r) && x != r
    ensures Reserved(cfg, Apply(cfg, s, Drop(x, reason)), r)
  {
    hide TenantLoad, Limits, Identity, Shape;
    var q := s.tenants[r.tenant].queue;
    assert Without(q, x)[0] == r;
  }

  lemma ReservedRelease(cfg: ValidatedConfig, s: State, x: Request, serving: Serving, r: Request)
    requires Inv(cfg, s) && x in s.inflight && Reserved(cfg, s, r)
    ensures Reserved(cfg, Apply(cfg, s, Release(x, serving)), r)
  {
    hide TenantLoad, Without, Limits, Identity, Shape;
    TenantLoadWithout(s.inflight, x, r.tenant);
  }

  lemma ReservedAdmit(cfg: ValidatedConfig, s: State, sub: Submission, r: Request)
    requires Enabled(cfg, s, Admit(sub)) && Reserved(cfg, s, r)
    ensures Reserved(cfg, Apply(cfg, s, Admit(sub)), r)
  {
    hide TenantLoad, QueueLoad, TotalLoad, QueueLimitFailure;
  }

  lemma ReservedStep(cfg: ValidatedConfig, s: State, e: Event, r: Request)
    requires Inv(cfg, s) && Enabled(cfg, s, e) && Reserved(cfg, s, r) && !Departs(e, r)
    ensures Reserved(cfg, Apply(cfg, s, e), r) && !e.Dispatch?
  {
    hide QueueLoad, TotalLoad, TenantLoad, FitsGlobal, GlobalFull, Alive, Without, AdmitRefusal, BoundedAdd,
      Inv, InflightFits;
    match e {
      case Admit(sub) => ReservedAdmit(cfg, s, sub, r);
      case Drop(x, reason) => ReservedDrop(cfg, s, x, reason, r);
      case Release(x, serving) => ReservedRelease(cfg, s, x, serving, r);
      case Rewind => QueuedSomewhere(s, r.tenant);
      case _ =>
    }
  }

  /**
   * Over every later run, whatever is admitted, canceled or finished, the reserved
   * head keeps its place and nothing else is dispatched until it leaves itself.
   */
  lemma {:induction false} NoOvertaking(cfg: ValidatedConfig, s: State, es: seq<Event>, r: Request)
    requires Sound(cfg) && Inv(cfg, s) && Legal(cfg, s, es) && Reserved(cfg, s, r) && Stays(es, r)
    ensures Reserved(cfg, Run(cfg, s, es), r)
    ensures Dispatches(es) == 0
    decreases |es|
  {
    hide Sound, Inv, Enabled, Apply, Reserved;
    if es != [] {
      var k := |es| - 1;
      NoOvertaking(cfg, s, es[..k], r);
      RunInv(cfg, s, es[..k]);
      ReservedStep(cfg, Run(cfg, s, es[..k]), es[k], r);
    }
  }

  lemma {:induction false} NoDispatchKeepsInflight(cfg: ValidatedConfig, s: State, es: seq<Event>)
    requires Legal(cfg, s, es) && PumpRun(es) && Dispatches(es) == 0
    ensures Run(cfg, s, es).inflight == s.inflight
    decreases |es|
  {
    hide Enabled, Apply;
    if es != [] {
      var k := |es| - 1;
      NoDispatchKeepsInflight(cfg, s, es[..k]);
      assert PumpEvent(es[k]);
      PumpStepInflight(cfg, Run(cfg, s, es[..k]), es[k]);
    }
  }

  lemma EmptyFitsGlobal(cfg: ValidatedConfig, s: State, r: Request)
    requires Sound(cfg) && Inv(cfg, s) && s.inflight == [] && Reserved(cfg, s, r)
    ensures FitsGlobal(cfg, s, r) && !GlobalFull(cfg, s)
  {
    hide TotalLoad, TenantLoad, Limits, Identity, SoundTenant, FitsTenant;
    assert QueueOk(cfg, r.tenant, s.tenants[r.tenant].queue, s.sequence);
  }

  lemma ReservedIsCursorHead(cfg: ValidatedConfig, s: State, r: Request, x: Request)
    requires Reserved(cfg, s, r) && Reserved(cfg, s, x)
    ensures r == x
  {
  }

  /**
   * A reserved head is not starved: a pump that begins with nothing in flight and
   * stops for one of its permitted reasons has dispatched or removed it.
   */
  lemma ReservedHeadLeaves(cfg: ValidatedConfig, s: State, es: seq<Event>, r: Request)
    requires Sound(cfg) && Inv(cfg, s) && Legal(cfg, s, es) && PumpRun(es)
    requires Reserved(cfg, s, r) && s.inflight == []
    requires |Run(cfg, s, es).tenants| == |cfg.tenants| && WorkConserving(cfg, Run(cfg, s, es))
    ensures !Stays(es, r)
  {
    hide Sound, Inv, Legal, Run, Reserved, FitsGlobal, GlobalFull;
    if Stays(es, r) {
      var end := Run(cfg, s, es);
      NoOvertaking(cfg, s, es, r);
      NoDispatchKeepsInflight(cfg, s, es);
      RunInv(cfg, s, es);
      EmptyFitsGlobal(cfg, end, r);
      ReservedPlaced(cfg, end, r);
      QueuedSomewhere(end, r.tenant);
      if x :| Reserved(cfg, end, x) && !FitsGlobal(cfg, end, x) {
        ReservedIsCursorHead(cfg, end, r, x);
        assert false;
      }
      assert false;
    }
  }

  lemma ReservedPlaced(cfg: ValidatedConfig, s: State, r: Request)
    requires Reserved(cfg, s, r)
    ensures r.tenant < |s.tenants| == |cfg.tenants| && HeadPlaced(s, r.tenant) && s.tenants[r.tenant].queue[0] == r
    ensures FitsTenant(cfg, s, r)
  {
  }
}
