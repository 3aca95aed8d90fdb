/**
 * How long a head can wait: while its tenant's own limit does not bind, the work
 * dispatched for everybody else stays below a bound fixed when the waiting starts,
 * plus what visits that removals start over may serve again.
 */
module Service {
  import opened Prelude
  import opened AdmissionConfig
  import opened Scheduling
  import opened SchedulingInvariant
  import opened Fairness
  import opened FundingCost
  import opened Barrier
  import opened OracleBudget

  /** The most work one visit of tenant `u` can serve. */
  function VisitWork(cfg: ValidatedConfig, u: nat): (w: nat)
    requires u < |cfg.tenants| && cfg.maxRequestUnits > 0
  {
    cfg.maxRequestUnits - 1 + cfg.tenants[u].quantum
  }

  function NextOf(c: nat, n: nat): (next: nat)
    requires c < n
    ensures next < n
  {
    if c + 1 >= n then 0 else c + 1
  }

  /** What one visit each of the tenants from `from` up to `to`, which is left out, can serve. */
  function Reach(cfg: ValidatedConfig, from: nat, to: nat): (w: nat)
    requires from < |cfg.tenants| && to < |cfg.tenants| && cfg.maxRequestUnits > 0
    decreases Distance(from, to, |cfg.tenants|)
  {
    if from == to then 0 else VisitWork(cfg, from) + Reach(cfg, NextOf(from, |cfg.tenants|), to)
  }

  /** One visit of everybody but `t`. */
  function Lap(cfg: ValidatedConfig, t: nat): (w: nat)
    requires t < |cfg.tenants| && cfg.maxRequestUnits > 0
  {
    Reach(cfg, NextOf(t, |cfg.tenants|), t)
  }

  /** How many more visits of a tenant close before its credit reaches `work`. */
  function Closes(quantum: nat, t: Tenant, work: nat): (k: nat)
    requires quantum > 0
  {
    if work <= t.deficit then 0 else (work - t.deficit - 1) / quantum + (if t.visitOpen then 1 else 0)
  }

  /** What the visit at the cursor can still serve. */
  function Left(cfg: ValidatedConfig, s: State): (w: nat)
    requires s.cursor < |s.tenants| == |cfg.tenants| && cfg.maxRequestUnits > 0
  {
    if s.tenants[s.cursor].visitOpen then s.tenants[s.cursor].deficit else VisitWork(cfg, s.cursor)
  }

  /** What can be served for others before the cursor reaches `t`. */
  function Ahead(cfg: ValidatedConfig, s: State, t: nat): (w: nat)
    requires s.cursor < |s.tenants| == |cfg.tenants| && t < |s.tenants| && cfg.maxRequestUnits > 0
  {
    if s.cursor == t then 0 else Left(cfg, s) + Reach(cfg, NextOf(s.cursor, |s.tenants|), t)
  }

  /** What can be served for others before a head of `work` units at `t` is affordable. */
  function Delay(cfg: ValidatedConfig, s: State, t: nat, work: nat): (w: nat)
    requires s.cursor < |s.tenants| == |cfg.tenants| && t < |s.tenants| && cfg.maxRequestUnits > 0
    requires cfg.tenants[t].quantum > 0
  {
    Ahead(cfg, s, t) + Closes(cfg.tenants[t].quantum, s.tenants[t], work) * Lap(cfg, t)
  }

  /** The visit at the cursor starts over: a removal empties its queue before it ends. */
  ghost predicate StartsOver(s: State, e: Event, t: nat) {
    && e.Drop? && e.dropped.tenant == s.cursor < |s.tenants| && s.cursor != t
    && s.tenants[s.cursor].visitOpen && Without(s.tenants[s.cursor].queue, e.dropped) == []
  }

  /** Work that the visits started over in a run can serve again. */
  ghost function Repeated(cfg: ValidatedConfig, s: State, es: seq<Event>, t: nat): (r: nat)
    requires Legal(cfg, s, es) && cfg.maxRequestUnits > 0
    decreases |es|
  {
    if es == [] then 0 else
      var before := Run(cfg, s, es[..|es| - 1]);
      Repeated(cfg, s, es[..|es| - 1], t) + RepeatedBy(cfg, before, es[|es| - 1], t)
  }

  ghost function RepeatedBy(cfg: ValidatedConfig, s: State, e: Event, t: nat): (r: nat)
    requires cfg.maxRequestUnits > 0
  {
    if StartsOver(s, e, t) && s.cursor < |cfg.tenants| then VisitWork(cfg, s.cursor) else 0
  }

  function WorkOf(e: Event): (r: nat) {
    if e.Dispatch? then e.request.work else 0
  }

  /** All work dispatched in a run. */
  function Dispensed(es: seq<Event>): (r: nat) {
    if es == [] then 0 else Dispensed(es[..|es| - 1]) + WorkOf(es[|es| - 1])
  }

  predicate HeadIs(s: State, r: Request) {
    r.tenant < |s.tenants| && s.tenants[r.tenant].queue != [] && s.tenants[r.tenant].queue[0] == r
  }

  // ---------------------------------------------------------------------
  // One event
  // ---------------------------------------------------------------------

  lemma LeftWithinVisit(cfg: ValidatedConfig, s: State, t: nat)
    requires Shape(cfg, s) && t < |s.tenants| && cfg.maxRequestUnits > 0
    ensures Left(cfg, s) <= VisitWork(cfg, s.cursor)
    ensures Ahead(cfg, s, t) <= Reach(cfg, s.cursor, t)
  {
    assert CreditOk(cfg, s.tenants[s.cursor], cfg.tenants[s.cursor].quantum);
  }

  lemma {:induction false} WithoutLater(q: seq<Request>, r: Request, x: Request)
    requires q != [] && q[0] == r && x != r
    ensures Without(q, x) != [] && Without(q, x)[0] == r
  {
  }

  /** A head that does not depart stays at its place. */
  lemma HeadStays(cfg: ValidatedConfig, s: State, e: Event, r: Request)
    requires Shape(cfg, s) && Enabled(cfg, s, e) && HeadIs(s, r) && !Departs(e, r)
    ensures HeadIs(Apply(cfg, s, e), r) && |Apply(cfg, s, e).tenants| == |s.tenants|
  {
    hide QueueLoad, TotalLoad, TenantLoad, FitsGlobal, FitsTenant, GlobalFull, Alive, BoundedAdd, QueueLimitFailure,
      Without, CreditOk, QueueOk, RequestOk;
    if e.Drop? && e.dropped.tenant == r.tenant {
      WithoutLater(s.tenants[r.tenant].queue, r, e.dropped);
    }
  }

  /** Away from `t` an event spends what the visit at the cursor has left, or ends the visit. */
  ghost predicate Spends(cfg: ValidatedConfig, s: State, e: Event, after: State, t: nat)
    requires s.cursor < |s.tenants| == |cfg.tenants| && t < |s.tenants| && cfg.maxRequestUnits > 0
  {
    && |after.tenants| == |s.tenants|
    && after.tenants[t].deficit == s.tenants[t].deficit
    && after.tenants[t].visitOpen == s.tenants[t].visitOpen
    && (after.cursor == s.cursor ==> WorkOf(e) + Left(cfg, after) <= Left(cfg, s) + RepeatedBy(cfg, s, e, t))
    && (after.cursor != s.cursor ==> after.cursor == NextOf(s.cursor, |s.tenants|) && WorkOf(e) <= Left(cfg, s))
  }

  /** A removal at the cursor that leaves its queue empty is a start over. */
  lemma DropAway(cfg: ValidatedConfig, s: State, e: Event, r: Request)
    requires Shape(cfg, s) && Enabled(cfg, s, e) && e.Drop? && HeadIs(s, r) && !Departs(e, r)
    requires s.cursor != r.tenant && cfg.maxRequestUnits > 0
    ensures Spends(cfg, s, e, Apply(cfg, s, e), r.tenant)
  {
    hide QueueLoad, TotalLoad, Without, QueueOk, RequestOk;
    LeftWithinVisit(cfg, s, r.tenant);
    var x := e.dropped;
    if x.tenant == r.tenant {
      WithoutLater(s.tenants[r.tenant].queue, r, x);
    }
  }

  lemma AdmitAway(cfg: ValidatedConfig, s: State, e: Event, r: Request)
    requires Shape(cfg, s) && Enabled(cfg, s, e) && e.Admit? && HeadIs(s, r)
    requires s.cursor != r.tenant && cfg.maxRequestUnits > 0
    ensures Spends(cfg, s, e, Apply(cfg, s, e), r.tenant)
  {
    hide AdmitRefusal, Enqueue, WellFormed, Known;
    if AdmitRefusal(cfg, s, e.sub).None? {
      EnqueueCredit(cfg, s, e.sub);
    }
  }

  lemma DispatchAway(cfg: ValidatedConfig, s: State, e: Event, r: Request)
    requires Shape(cfg, s) && Enabled(cfg, s, e) && e.Dispatch? && HeadIs(s, r) && !Departs(e, r)
    requires s.cursor != r.tenant && cfg.maxRequestUnits > 0
    ensures Spends(cfg, s, e, Apply(cfg, s, e), r.tenant)
  {
    hide QueueLoad, TotalLoad, TenantLoad, FitsGlobal, FitsTenant, GlobalFull, Alive, Without, CreditOk, QueueOk,
      RequestOk, VisitWork;
  }

  /** The pump's other moves. */
  lemma MoveAway(cfg: ValidatedConfig, s: State, e: Event, r: Request)
    requires Sound(cfg) && Inv(cfg, s) && Enabled(cfg, s, e) && HeadIs(s, r)
    requires e.Skip? || e.Fund? || e.Block? || e.Close? || e.Rewind?
    requires s.cursor < |s.tenants| == |cfg.tenants| && s.cursor != r.tenant && cfg.maxRequestUnits > 0
    ensures Spends(cfg, s, e, Apply(cfg, s, e), r.tenant)
  {
    hide QueueLoad, TotalLoad, TenantLoad, FitsGlobal, FitsTenant, GlobalFull, Alive, BoundedAdd,
      QueueOk, RequestOk, CreditOk, Sound, Limits, Identity, VisitWork;
    match e {
      case Fund(u) =>
        FundingIsExact(cfg, s, u);
        FundedCredit(cfg, s);
      case Rewind =>
        QueuedSomewhere(s, r.tenant);
        assert false;
      case _ =>
    }
  }

  /** Everything else leaves the tenants and the cursor alone. */
  lemma RestAway(cfg: ValidatedConfig, s: State, e: Event, r: Request)
    requires Shape(cfg, s) && Enabled(cfg, s, e) && HeadIs(s, r)
    requires e.Tick? || e.ClientCancels? || e.Signal? || e.Release? || e.StopAccepting? || e.CloseDrained?
    requires cfg.maxRequestUnits > 0
    ensures Spends(cfg, s, e, Apply(cfg, s, e), r.tenant)
  {
    hide TotalLoad, QueueLoad, VisitWork, CreditOk, QueueOk, RequestOk, Without, Known;
  }

  lemma AwayFromHead(cfg: ValidatedConfig, s: State, e: Event, r: Request)
    requires Sound(cfg) && Inv(cfg, s) && Enabled(cfg, s, e) && HeadIs(s, r) && !Departs(e, r)
    requires s.cursor < |s.tenants| == |cfg.tenants| && s.cursor != r.tenant && cfg.maxRequestUnits > 0
    ensures Spends(cfg, s, e, Apply(cfg, s, e), r.tenant)
  {
    hide Sound, Inv, Shape, Enabled, Apply, Spends, Departs;
    ShapeOf(cfg, s);
    match e {
      case Drop(_, _) => DropAway(cfg, s, e, r);
      case Admit(_) => AdmitAway(cfg, s, e, r);
      case Dispatch(_) => DispatchAway(cfg, s, e, r);
      case Skip(_) => MoveAway(cfg, s, e, r);
      case Fund(_) => MoveAway(cfg, s, e, r);
      case Block(_) => MoveAway(cfg, s, e, r);
      case Close(_) => MoveAway(cfg, s, e, r);
      case Rewind => MoveAway(cfg, s, e, r);
      case _ => RestAway(cfg, s, e, r);
    }
  }

  lemma FundedCredit(cfg: ValidatedConfig, s: State)
    requires Shape(cfg, s) && !s.tenants[s.cursor].visitOpen && cfg.maxRequestUnits > 0
    ensures s.tenants[s.cursor].deficit + cfg.tenants[s.cursor].quantum <= VisitWork(cfg, s.cursor)
  {
    assert CreditOk(cfg, s.tenants[s.cursor], cfg.tenants[s.cursor].quantum);
  }

  /** At `t` nothing is served, and each close brings its credit a quantum nearer. */
  lemma AtHead(cfg: ValidatedConfig, s: State, e: Event, r: Request)
    requires Sound(cfg) && Inv(cfg, s) && Enabled(cfg, s, e) && HeadIs(s, r) && !Departs(e, r)
    requires s.cursor == r.tenant < |s.tenants| == |cfg.tenants| && e != Block(r.tenant)
    ensures var after := Apply(cfg, s, e);
      var was := s.tenants[r.tenant];
      && |after.tenants| == |s.tenants| && WorkOf(e) == 0
      && (var now := after.tenants[r.tenant];
      if e == Close(r.tenant) then
        after.cursor == NextOf(s.cursor, |s.tenants|) && was.visitOpen && was.deficit < r.work
        && now.deficit == was.deficit && !now.visitOpen
      else
        after.cursor == s.cursor
        && (if e == Fund(r.tenant) then !was.visitOpen && now.visitOpen
                                        && now.deficit == was.deficit + cfg.tenants[r.tenant].quantum
            else now.deficit == was.deficit && now.visitOpen == was.visitOpen))
  {
    hide QueueLoad, TotalLoad, TenantLoad, FitsGlobal, FitsTenant, GlobalFull, Alive, BoundedAdd, QueueLimitFailure,
      Without, QueueOk, RequestOk, CreditOk, Sound, Limits, Identity;
    match e {
      case Fund(u) =>
        FundingIsExact(cfg, s, u);
      case Rewind =>
        QueuedSomewhere(s, r.tenant);
        assert false;
      case Drop(x, _) =>
        if x.tenant == r.tenant {
          WithoutLater(s.tenants[r.tenant].queue, r, x);
        }
      case _ =>
    }
  }

  lemma ClosesStep(quantum: nat, was: Tenant, now: Tenant, work: nat)
    requires quantum > 0
    ensures !was.visitOpen && now.visitOpen && now.deficit == was.deficit + quantum ==>
      Closes(quantum, now, work) <= Closes(quantum, was, work)
    ensures was.visitOpen && !now.visitOpen && now.deficit == was.deficit < work ==>
      Closes(quantum, now, work) + 1 == Closes(quantum, was, work)
    ensures now.visitOpen == was.visitOpen && now.deficit == was.deficit ==>
      Closes(quantum, now, work) == Closes(quantum, was, work)
  {
    if now.deficit == was.deficit + quantum && now.deficit < work {
      OneStepLess(work - was.deficit - 1, work - now.deficit - 1, quantum);
    }
  }

  lemma ShapeOf(cfg: ValidatedConfig, s: State)
    requires Inv(cfg, s)
    ensures Shape(cfg, s) && |s.tenants| == |cfg.tenants| && s.cursor < |s.tenants|
  {
  }

  lemma Positive(cfg: ValidatedConfig, t: nat)
    requires Sound(cfg) && t < |cfg.tenants|
    ensures cfg.maxRequestUnits > 0 && cfg.tenants[t].quantum > 0
  {
    assert SoundTenant(cfg, cfg.tenants[t]);
  }

  /** Every event pays for the work it dispatches out of the delay left. */
  lemma DelayStep(cfg: ValidatedConfig, s: State, e: Event, r: Request)
    requires Sound(cfg) && Inv(cfg, s) && Enabled(cfg, s, e) && Inv(cfg, Apply(cfg, s, e))
    requires HeadIs(s, r) && !Departs(e, r) && e != Block(r.tenant)
    ensures |s.tenants| == |cfg.tenants| == |Apply(cfg, s, e).tenants|
    ensures s.cursor < |s.tenants| && Apply(cfg, s, e).cursor < |s.tenants|
    ensures cfg.maxRequestUnits > 0 && cfg.tenants[r.tenant].quantum > 0
    ensures HeadIs(Apply(cfg, s, e), r)
    ensures WorkOf(e) + Delay(cfg, Apply(cfg, s, e), r.tenant, r.work)
         <= Delay(cfg, s, r.tenant, r.work) + RepeatedBy(cfg, s, e, r.tenant)
  {
    hide Sound, Inv, Enabled, Apply, Shape, Left, Reach, Closes, RepeatedBy;
    var after, t := Apply(cfg, s, e), r.tenant;
    ShapeOf(cfg, s);
    ShapeOf(cfg, after);
    Positive(cfg, t);
    HeadStays(cfg, s, e, r);
    LeftWithinVisit(cfg, after, t);
    var q, was, now := cfg.tenants[t].quantum, s.tenants[t], after.tenants[t];
    ClosesStep(q, was, now, r.work);
    if s.cursor == t {
      AtHead(cfg, s, e, r);
      if e == Close(t) {
        OneMore(Closes(q, now, r.work), Lap(cfg, t));
      } else {
        MulMono(Closes(q, now, r.work), Closes(q, was, r.work), Lap(cfg, t));
      }
    } else {
      AwayFromHead(cfg, s, e, r);
    }
  }

  /**
   * While a head waits whose tenant's own limit does not bind, the work dispatched
   * for everybody else is at most what could delay it when the wait began, less what
   * still can, plus what the visits that removals started over could serve again.
   */
  lemma {:induction false} WaitIsBounded(cfg: ValidatedConfig, s: State, es: seq<Event>, r: Request)
    requires Sound(cfg) && Inv(cfg, s) && Legal(cfg, s, es)
    requires HeadIs(s, r) && Stays(es, r) && NeverBlocked(es, r.tenant)
    ensures |s.tenants| == |cfg.tenants| == |Run(cfg, s, es).tenants|
    ensures s.cursor < |s.tenants| && Run(cfg, s, es).cursor < |s.tenants|
    ensures cfg.maxRequestUnits > 0 && cfg.tenants[r.tenant].quantum > 0
    ensures HeadIs(Run(cfg, s, es), r)
    ensures Dispensed(es) + Delay(cfg, Run(cfg, s, es), r.tenant, r.work)
         <= Delay(cfg, s, r.tenant, r.work) + Repeated(cfg, s, es, r.tenant)
    decreases |es|
  {
    hide Sound, Inv, Enabled, Apply, Delay, RepeatedBy;
    if es == [] {
      ShapeOf(cfg, s);
      Positive(cfg, r.tenant);
    } else {
      var k := |es| - 1;
      WaitIsBounded(cfg, s, es[..k], r);
      RunInv(cfg, s, es[..k]);
      RunInv(cfg, s, es);
      assert !Departs(es[k], r) && es[k] != Block(r.tenant);
      DelayStep(cfg, Run(cfg, s, es[..k]), es[k], r);
    }
  }

  // ---------------------------------------------------------------------
  // The bound in closed form
  // ---------------------------------------------------------------------

  lemma {:induction false} ReachWithinLap(cfg: ValidatedConfig, from: nat, t: nat)
    requires from < |cfg.tenants| && t < |cfg.tenants| && from != t && cfg.maxRequestUnits > 0
    ensures Reach(cfg, from, t) <= Lap(cfg, t)
    decreases Distance(t, from, |cfg.tenants|)
  {
    hide VisitWork;
    var n := |cfg.tenants|;
    if from != NextOf(t, n) {
      ReachWithinLap(cfg, if from == 0 then n - 1 else from - 1, t);
    }
  }

  lemma ClosesFromNothing(quantum: nat, t: Tenant, work: nat)
    requires quantum > 0 && work > 0
    ensures Closes(quantum, t, work) <= CeilDiv(work, quantum)
  {
    if work > t.deficit {
      QuotientMono(work - t.deficit - 1, work - 1, quantum);
      assert work + quantum - 1 == (work - 1) + quantum;
      OneStepLess(work + quantum - 1, work - 1, quantum);
    }
  }

  /**
   * If no visit starts over, the others are served at most one visit each for every
   * funding the head still needs, and one more: a bound fixed by the configuration.
   */
  lemma BoundedBypass(cfg: ValidatedConfig, s: State, es: seq<Event>, r: Request)
    requires Sound(cfg) && Inv(cfg, s) && Legal(cfg, s, es)
    requires HeadIs(s, r) && Stays(es, r) && NeverBlocked(es, r.tenant)
    requires cfg.maxRequestUnits > 0 && Repeated(cfg, s, es, r.tenant) == 0
    ensures r.tenant < |cfg.tenants| && cfg.tenants[r.tenant].quantum > 0
    ensures Dispensed(es) <= (CeilDiv(r.work, cfg.tenants[r.tenant].quantum) + 1) * Lap(cfg, r.tenant)
  {
    hide Sound, Inv, Legal, Run, Reach, Closes, Left;
    WaitIsBounded(cfg, s, es, r);
    ShapeOf(cfg, s);
    HeadWork(cfg, s, r);
    LeftWithinVisit(cfg, s, r.tenant);
    if s.cursor != r.tenant {
      ReachWithinLap(cfg, s.cursor, r.tenant);
    }
    var q, lap := cfg.tenants[r.tenant].quantum, Lap(cfg, r.tenant);
    ClosesFromNothing(q, s.tenants[r.tenant], r.work);
    MulMono(Closes(q, s.tenants[r.tenant], r.work), CeilDiv(r.work, q), lap);
    OneMore(CeilDiv(r.work, q), lap);
  }

  lemma HeadWork(cfg: ValidatedConfig, s: State, r: Request)
    requires Shape(cfg, s) && HeadIs(s, r)
    ensures r.work > 0
  {
    assert QueueOk(cfg, r.tenant, s.tenants[r.tenant].queue, s.sequence);
  }
}
