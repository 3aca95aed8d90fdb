/**
 * The independent weighted deficit round-robin oracle, and the proof that the
 * scheduler's dispatch order is the oracle's.
 */
module Oracle {
  import opened Prelude
  import opened AdmissionConfig
  import opened Scheduling
  import opened SchedulingInvariant
  import opened Fairness
  import opened FundingCost
  import opened Barrier

  datatype Table = Table(tenants: seq<Tenant>, cursor: nat)

  /** One visit of the oracle: the table afterwards and the requests it picked. */
  datatype Outcome = Outcome(table: Table, picked: seq<Request>)

  ghost predicate Proper(cfg: ValidatedConfig, o: Table) {
    |o.tenants| == |cfg.tenants| && o.cursor < |o.tenants|
  }

  function Next(o: Table): (r: Table) {
    o.(cursor := if o.cursor + 1 >= |o.tenants| then 0 else o.cursor + 1)
  }

  function Opened(cfg: ValidatedConfig, o: Table): (r: Tenant)
    requires o.cursor < |o.tenants| == |cfg.tenants|
  {
    var t := o.tenants[o.cursor];
    if t.visitOpen then t
    else t.(deficit := BoundedAdd(t.deficit, cfg.tenants[o.cursor].quantum, cfg.deficitCap), visitOpen := true)
  }

  function Visit(cfg: ValidatedConfig, o: Table): (r: Outcome)
    requires o.cursor < |o.tenants| == |cfg.tenants|
  {
    var t := o.tenants[o.cursor];
    if t.queue == [] then
      Outcome(Next(o.(tenants := o.tenants[o.cursor := Tenant([], 0, false)])), [])
    else
      var open := Opened(cfg, o);
      var head := t.queue[0];
      if head.work > open.deficit then
        Outcome(Next(o.(tenants := o.tenants[o.cursor := open.(visitOpen := false)])), [])
      else
        var left := Tenant(t.queue[1..], open.deficit - head.work, true);
        if left.queue == [] then
          Outcome(Next(o.(tenants := o.tenants[o.cursor := Tenant([], 0, false)])), [head])
        else
          Outcome(o.(tenants := o.tenants[o.cursor := left]), [head])
  }

  function Visits(cfg: ValidatedConfig, o: Table, k: nat): (r: Outcome)
    requires o.cursor < |o.tenants| == |cfg.tenants|
    ensures r.table.cursor < |r.table.tenants| == |cfg.tenants|
    decreases k
  {
    if k == 0 then Outcome(o, []) else
      var before := Visits(cfg, o, k - 1);
      var one := Visit(cfg, before.table);
      Outcome(one.table, before.picked + one.picked)
  }

  // ---------------------------------------------------------------------
  // The bounded plan
  // ---------------------------------------------------------------------

  function Remaining(ts: seq<Tenant>): (r: nat) {
    TotalLoad(ts).count
  }

  /** What one visit takes from the queues it adds to the plan. */
  lemma VisitRemaining(cfg: ValidatedConfig, o: Table)
    requires o.cursor < |o.tenants| == |cfg.tenants|
    ensures Remaining(Visit(cfg, o).table.tenants) + |Visit(cfg, o).picked| == Remaining(o.tenants)
  {
    hide TotalLoad, QueueLoad, BoundedAdd;
    var after := Visit(cfg, o).table.tenants;
    var q := o.tenants[o.cursor].queue;
    var rest := after[o.cursor].queue;
    assert after == o.tenants[o.cursor := after[o.cursor]];
    if Visit(cfg, o).picked == [] {
      SameLoad(q, rest);
      TotalLoadUpdate(o.tenants, o.cursor, after[o.cursor], Nothing());
    } else {
      assert rest == q[1..];
      HeadLoad(q);
      TotalLoadUpdate(o.tenants, o.cursor, after[o.cursor], LoadOf(q[0]));
    }
  }

  lemma HeadLoad(q: seq<Request>)
    requires q != []
    ensures IsSum(QueueLoad(q), QueueLoad(q[1..]), LoadOf(q[0]))
  {
  }

  lemma SameLoad(q: seq<Request>, p: seq<Request>)
    requires q == p
    ensures IsSum(QueueLoad(p), QueueLoad(q), Nothing())
  {
  }

  lemma {:induction false} VisitsRemaining(cfg: ValidatedConfig, o: Table, k: nat)
    requires o.cursor < |o.tenants| == |cfg.tenants|
    ensures Remaining(Visits(cfg, o, k).table.tenants) + |Visits(cfg, o, k).picked| == Remaining(o.tenants)
  {
    hide Remaining, Visit;
    if k > 0 {
      VisitsRemaining(cfg, o, k - 1);
      VisitRemaining(cfg, Visits(cfg, o, k - 1).table);
    }
  }

  lemma {:induction false} VisitsPrefix(cfg: ValidatedConfig, o: Table, j: nat, k: nat)
    requires o.cursor < |o.tenants| == |cfg.tenants| && j <= k
    ensures Visits(cfg, o, j).picked <= Visits(cfg, o, k).picked
  {
    hide Visit;
    if j < k {
      VisitsPrefix(cfg, o, j, k - 1);
    }
  }

  /** Two complete plans from one table are the same plan. */
  lemma CompletePlanIsUnique(cfg: ValidatedConfig, o: Table, j: nat, k: nat)
    requires o.cursor < |o.tenants| == |cfg.tenants|
    requires Remaining(Visits(cfg, o, j).table.tenants) == 0 == Remaining(Visits(cfg, o, k).table.tenants)
    ensures Visits(cfg, o, j).picked == Visits(cfg, o, k).picked
  {
    hide Visits, Visit, Remaining;
    VisitsRemaining(cfg, o, j);
    VisitsRemaining(cfg, o, k);
    if j <= k {
      VisitsPrefix(cfg, o, j, k);
    } else {
      VisitsPrefix(cfg, o, k, j);
    }
  }

  /** A plan that leaves nothing queued. */
  ghost predicate CompletePlan(cfg: ValidatedConfig, o: Table, plan: seq<Request>)
    requires Proper(cfg, o)
  {
    exists k: nat :: Visits(cfg, o, k).picked == plan && Remaining(Visits(cfg, o, k).table.tenants) == 0
  }

  // ---------------------------------------------------------------------
  // The scheduler follows the oracle
  // ---------------------------------------------------------------------

  function View(s: State): (r: Table) { Table(s.tenants, s.cursor) }

  function DispatchTrace(es: seq<Event>): (r: seq<Request>) {
    if es == [] then [] else
      var e := es[|es| - 1];
      DispatchTrace(es[..|es| - 1]) + (if e.Dispatch? then [e.request] else [])
  }

  /** The latest event that moves the pump. */
  function LastMove(es: seq<Event>): (r: Option<Event>) {
    if es == [] then None else
      var e := es[|es| - 1];
      if Moves(e) then Some(e) else LastMove(es[..|es| - 1])
  }

  predicate Moves(e: Event) { e.Skip? || e.Fund? || e.Close? || e.Dispatch? }

  /** No arrivals, no removals, no tenant limit reached, and no rewind of an empty table. */
  predicate Undisturbed(e: Event) {
    !e.Admit? && !e.Drop? && !e.Block? && !e.Rewind?
  }

  predicate Quiet(es: seq<Event>) {
    forall i :: 0 <= i < |es| ==> Undisturbed(es[i])
  }

  /** Each move of the pump other than funding is one whole visit of the oracle. */
  lemma MoveIsVisit(cfg: ValidatedConfig, s: State, e: Event)
    requires Shape(cfg, s) && Enabled(cfg, s, e) && Moves(e) && !e.Fund?
    ensures Visit(cfg, View(s)) == Outcome(View(Apply(cfg, s, e)), if e.Dispatch? then [e.request] else [])
  {
    hide QueueLoad, TotalLoad, TenantLoad, FitsGlobal, FitsTenant, GlobalFull, Alive, BoundedAdd;
    if e.Dispatch? {
      WithoutHead(s.tenants[e.request.tenant].queue);
    }
  }

  /** Funding is the first half of a visit. */
  lemma FundIsHalfVisit(cfg: ValidatedConfig, s: State, e: Event)
    requires Shape(cfg, s) && Enabled(cfg, s, e) && e.Fund?
    ensures Proper(cfg, View(s)) && Proper(cfg, View(Apply(cfg, s, e)))
    ensures HalfVisited(cfg, View(s), View(Apply(cfg, s, e)))
  {
    hide QueueLoad, TotalLoad, TenantLoad, FitsGlobal, FitsTenant, GlobalFull, Alive, BoundedAdd;
  }

  /** The second half of a visit leads where the whole visit leads. */
  lemma HalfVisitEnds(cfg: ValidatedConfig, o: Table, end: Table)
    requires Proper(cfg, o) && Proper(cfg, end) && HalfVisited(cfg, o, end)
    ensures Visit(cfg, o) == Visit(cfg, end) && end.tenants[end.cursor].visitOpen
  {
    hide BoundedAdd;
  }

  lemma OthersKeepView(cfg: ValidatedConfig, s: State, e: Event)
    requires Enabled(cfg, s, e) && Undisturbed(e) && !Moves(e)
    ensures View(Apply(cfg, s, e)) == View(s)
  {
    hide QueueLoad, TotalLoad, TenantLoad, FitsGlobal, FitsTenant, GlobalFull, Alive, Without;
  }

  /** The table between the funding of a visit and the look at its head. */
  ghost predicate HalfVisited(cfg: ValidatedConfig, o: Table, end: Table)
    requires Proper(cfg, o)
  {
    var t := o.tenants[o.cursor];
    t.queue != [] && !t.visitOpen && end == o.(tenants := o.tenants[o.cursor := Opened(cfg, o)])
  }

  /**
   * After `k` visits the oracle has picked what was dispatched. It stands where
   * the scheduler stands, or one funding behind it.
   */
  ghost predicate Tracks(cfg: ValidatedConfig, start: Table, end: Table, k: nat, trace: seq<Request>, half: bool)
    requires Proper(cfg, start) && Proper(cfg, end)
  {
    var o := Visits(cfg, start, k);
    && o.picked == trace
    && (!half ==> o.table == end)
    && (half ==> HalfVisited(cfg, o.table, end))
  }

  lemma ProperView(cfg: ValidatedConfig, s: State)
    requires Inv(cfg, s)
    ensures Proper(cfg, View(s)) && Shape(cfg, s)
  {
  }

  lemma TracksStep(cfg: ValidatedConfig, start: Table, s: State, e: Event, k: nat, trace: seq<Request>, half: bool)
    returns (k': nat)
    requires Sound(cfg) && Inv(cfg, s) && Enabled(cfg, s, e) && Undisturbed(e) && Inv(cfg, Apply(cfg, s, e))
    requires Proper(cfg, start) && Proper(cfg, View(s)) && Tracks(cfg, start, View(s), k, trace, half)
    ensures Proper(cfg, View(Apply(cfg, s, e)))
    ensures Tracks(cfg, start, View(Apply(cfg, s, e)), k', trace + (if e.Dispatch? then [e.request] else []),
                   if Moves(e) then e.Fund? else half)
  {
    hide Sound, Inv, Enabled, Apply, Visit, Visits, HalfVisited;
    var after := Apply(cfg, s, e);
    if half {
      HalfVisitEnds(cfg, Visits(cfg, start, k).table, View(s));
    }
    ProperView(cfg, s);
    ProperView(cfg, after);
    assert trace + [] == trace;
    if Moves(e) && e.Fund? {
      FundIsHalfVisit(cfg, s, e);
      FundOpens(cfg, s, e);
      k' := k;
    } else if Moves(e) {
      MoveIsVisit(cfg, s, e);
      OneMoreVisit(cfg, start, k);
      k' := k + 1;
    } else {
      OthersKeepView(cfg, s, e);
      k' := k;
    }
  }

  lemma FundOpens(cfg: ValidatedConfig, s: State, e: Event)
    requires Shape(cfg, s) && Enabled(cfg, s, e) && e.Fund?
    ensures !s.tenants[s.cursor].visitOpen
    ensures var after := Apply(cfg, s, e); after.cursor < |after.tenants| && after.tenants[after.cursor].visitOpen
  {
    hide QueueLoad, TotalLoad, TenantLoad, GlobalFull, Alive, BoundedAdd;
  }

  lemma OneMoreVisit(cfg: ValidatedConfig, start: Table, k: nat)
    requires Proper(cfg, start)
    ensures var before := Visits(cfg, start, k);
      var one := Visit(cfg, before.table);
      Visits(cfg, start, k + 1) == Outcome(one.table, before.picked + one.picked)
  {
    hide Visit;
  }

  predicate Half(es: seq<Event>) {
    LastMove(es).Some? && LastMove(es).value.Fund?
  }

  /**
   * On every run without arrivals, removals or tenant limits the scheduler is the
   * oracle: it dispatches the same requests in the same order and keeps the same
   * queues, credit, open visits and cursor.
   */
  lemma {:induction false} SchedulerFollowsOracle(cfg: ValidatedConfig, s: State, es: seq<Event>) returns (k: nat)
    requires Sound(cfg) && Inv(cfg, s) && Legal(cfg, s, es) && Quiet(es)
    ensures Proper(cfg, View(s)) && Proper(cfg, View(Run(cfg, s, es)))
    ensures Tracks(cfg, View(s), View(Run(cfg, s, es)), k, DispatchTrace(es), Half(es))
    decreases |es|
  {
    hide Sound, Inv, Enabled, Apply, Tracks;
    ProperView(cfg, s);
    if es == [] {
      k := 0;
      TracksStart(cfg, View(s));
    } else {
      var n := |es| - 1;
      var mid := Run(cfg, s, es[..n]);
      var j := SchedulerFollowsOracle(cfg, s, es[..n]);
      RunInv(cfg, s, es[..n]);
      RunInv(cfg, s, es);
      assert Undisturbed(es[n]);
      k := TracksStep(cfg, View(s), mid, es[n], j, DispatchTrace(es[..n]), Half(es[..n]));
    }
  }

  lemma TracksStart(cfg: ValidatedConfig, o: Table)
    requires Proper(cfg, o)
    ensures Tracks(cfg, o, o, 0, [], false)
  {
  }

  // ---------------------------------------------------------------------
  // One in-flight slot: each pump is the oracle's next pick
  // ---------------------------------------------------------------------

  ghost predicate NoDrops(es: seq<Event>) {
    forall i :: 0 <= i < |es| ==> !es[i].Drop?
  }

  /** With one slot, a pump with room has nothing in flight, so no tenant limit can bind. */
  lemma OneSlotRoom(cfg: ValidatedConfig, s: State)
    requires Sound(cfg) && Inv(cfg, s) && cfg.globalInflight.count == 1 && PumpRoom(cfg, s)
    ensures s.inflight == []
  {
    hide TotalLoad, TenantLoad, Identity, Shape, Sound, QueueLoad;
    QueueLoadCount(s.inflight);
  }

  lemma EmptyFitsTenant(cfg: ValidatedConfig, s: State, r: Request)
    requires Sound(cfg) && s.inflight == [] && RequestOk(cfg, r)
    ensures FitsTenant(cfg, s, r)
  {
    hide FundingBound;
    assert SoundTenant(cfg, cfg.tenants[r.tenant]);
  }

  lemma HeadOk(cfg: ValidatedConfig, s: State, t: nat)
    requires Inv(cfg, s) && t < |s.tenants| && s.tenants[t].queue != []
    ensures RequestOk(cfg, s.tenants[t].queue[0]) && s.tenants[t].queue[0].tenant == t
  {
    hide Limits, Identity;
    assert QueueOk(cfg, t, s.tenants[t].queue, s.sequence);
  }

  lemma OneSlotNeverBlocks(cfg: ValidatedConfig, s: State, e: Event)
    requires Sound(cfg) && Inv(cfg, s) && cfg.globalInflight.count == 1 && Enabled(cfg, s, e)
    ensures !e.Block?
  {
    hide Sound, Inv, TenantLoad, QueueLoad, TotalLoad, FitsGlobal, RequestOk, GlobalFull, Alive;
    if e.Block? {
      OneSlotRoom(cfg, s);
      HeadOk(cfg, s, e.tenant);
      EmptyFitsTenant(cfg, s, s.tenants[e.tenant].queue[0]);
      assert false;
    }
  }

  /** A pump that has used its only slot moves no further. */
  lemma OneSlotStops(cfg: ValidatedConfig, s: State, e: Event)
    requires Sound(cfg) && Inv(cfg, s) && cfg.globalInflight.count == 1 && Enabled(cfg, s, e)
    requires s.inflight != []
    ensures !Moves(e) && !e.Rewind?
  {
    hide Sound, Inv, TenantLoad, QueueLoad, TotalLoad, FitsGlobal, FitsTenant, GlobalFull, Alive;
    if Moves(e) || e.Rewind? {
      OneSlotRoom(cfg, s);
      assert false;
    }
  }

  /** Inside one pump without removals the table is not rewound and at most one request leaves. */
  lemma {:induction false} OneSlotPump(cfg: ValidatedConfig, s: State, es: seq<Event>)
    requires Sound(cfg) && Inv(cfg, s) && cfg.globalInflight.count == 1 && s.inflight == []
    requires Remaining(s.tenants) > 0
    requires Legal(cfg, s, es) && PumpRun(es) && NoDrops(es)
    ensures Quiet(es)
    ensures Dispatches(es) == |DispatchTrace(es)| == |Run(cfg, s, es).inflight| <= 1
    ensures Dispatches(es) == 1 ==> LastMove(es).Some? && LastMove(es).value.Dispatch?
    ensures Dispatches(es) == 0 ==> Remaining(Run(cfg, s, es).tenants) == Remaining(s.tenants)
    decreases |es|
  {
    hide Sound, Inv, Enabled, Apply, Remaining;
    if es != [] {
      var n := |es| - 1;
      var mid := Run(cfg, s, es[..n]);
      var e := es[n];
      assert PumpEvent(e) && !e.Drop?;
      OneSlotPump(cfg, s, es[..n]);
      RunInv(cfg, s, es[..n]);
      OneSlotNeverBlocks(cfg, mid, e);
      PumpStepInflight(cfg, mid, e);
      if mid.inflight != [] {
        OneSlotStops(cfg, mid, e);
      } else {
        RewindGuard(cfg, mid, e);
        if !e.Dispatch? {
          KeepsRemaining(cfg, mid, e);
        }
      }
      assert Undisturbed(e);
    }
  }

  lemma RewindGuard(cfg: ValidatedConfig, s: State, e: Event)
    requires Enabled(cfg, s, e)
    ensures e.Rewind? ==> Remaining(s.tenants) == 0
  {
    hide TotalLoad;
  }

  lemma KeepsRemaining(cfg: ValidatedConfig, s: State, e: Event)
    requires Enabled(cfg, s, e) && !e.Admit? && !e.Drop? && !e.Dispatch?
    ensures Remaining(Apply(cfg, s, e).tenants) == Remaining(s.tenants)
  {
    hide TotalLoad, QueueLoad, TenantLoad, FitsGlobal, FitsTenant, GlobalFull, Alive, BoundedAdd;
    TotalLoadSameQueues(s.tenants, Apply(cfg, s, e).tenants);
  }

  /** With nothing in flight and work queued, no reason to stop applies. */
  lemma IdlePumpMustDispatch(cfg: ValidatedConfig, s: State)
    requires Sound(cfg) && Inv(cfg, s) && s.inflight == [] && Remaining(s.tenants) > 0
    ensures |s.tenants| == |cfg.tenants| && !WorkConserving(cfg, s)
  {
    hide Sound, Inv, TotalLoad, Reserved, FitsGlobal, FitsTenant;
    InvSized(cfg, s);
    NothingQueued(s.tenants);
    var t :| 0 <= t < |s.tenants| && s.tenants[t].queue != [];
    var head := s.tenants[t].queue[0];
    HeadOk(cfg, s, t);
    EmptyFitsTenant(cfg, s, head);
    assert HeadPlaced(s, t);
    EmptyNotFull(cfg, s);
    forall r | Reserved(cfg, s, r) ensures FitsGlobal(cfg, s, r) {
      EmptyFitsGlobal(cfg, s, r);
    }
  }

  lemma EmptyNotFull(cfg: ValidatedConfig, s: State)
    requires Sound(cfg) && s.inflight == []
    ensures !GlobalFull(cfg, s)
  {
  }

  /**
   * With one in-flight slot, nothing in flight, work queued, and no cancellation
   * or expiry, one call of the pump dispatches exactly the request the oracle loop
   * picks next, and leaves the oracle's queues, credit, open visits and cursor.
   */
  lemma PumpIsOraclePick(cfg: ValidatedConfig, s: State, es: seq<Event>) returns (k: nat, r: Request)
    requires Sound(cfg) && Inv(cfg, s) && cfg.globalInflight.count == 1 && s.inflight == []
    requires Remaining(s.tenants) > 0
    requires Legal(cfg, s, es) && PumpRun(es) && NoDrops(es)
    requires |Run(cfg, s, es).tenants| == |cfg.tenants| && WorkConserving(cfg, Run(cfg, s, es))
    ensures Proper(cfg, View(s))
    ensures DispatchTrace(es) == [r]
    ensures Visits(cfg, View(s), k) == Outcome(View(Run(cfg, s, es)), [r])
  {
    hide Sound, Inv, Legal, Run, Visits, Visit, WorkConserving, Remaining, PumpRun;
    var end := Run(cfg, s, es);
    OneSlotPump(cfg, s, es);
    RunInv(cfg, s, es);
    if Dispatches(es) == 0 {
      IdlePumpMustDispatch(cfg, end);
      assert false;
    }
    k := SchedulerFollowsOracle(cfg, s, es);
    r := DispatchTrace(es)[0];
    assert DispatchTrace(es) == [r];
  }
}
