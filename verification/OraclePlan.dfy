/**
 * The planning loop of the saturation tool, with its table of jobs: the plan exists
 * exactly when every queued job is a service job of its tenant that fits the credit
 * cap, and then it is the oracle's one complete plan.
 */
module OraclePlan {
  import opened Prelude
  import opened AdmissionConfig
  import opened Scheduling
  import opened SchedulingInvariant
  import opened FundingCost
  import opened Oracle
  import opened OracleBudget

  datatype JobKind = ControlJob | ServiceJob | CancelJob | DeadlineJob | RejectJob | GlobalRejectJob

  /** A job and the request it makes; the request's tenant is the tenant's place in the table. */
  datatype Job = Job(kind: JobKind, request: Request)

  datatype OracleTenant = OracleTenant(queue: seq<nat>, deficit: nat, visitOpen: bool)

  predicate Servable(jobs: map<nat, Job>, t: nat, id: nat) {
    id in jobs && jobs[id].kind == ServiceJob && jobs[id].request.tenant == t
  }

  predicate AllServable(jobs: map<nat, Job>, ts: seq<OracleTenant>) {
    forall t, i :: 0 <= t < |ts| && 0 <= i < |ts[t].queue| ==> Servable(jobs, t, ts[t].queue[i])
  }

  function Requests(jobs: map<nat, Job>, ids: seq<nat>): (q: seq<Request>)
    requires forall i :: 0 <= i < |ids| ==> ids[i] in jobs
    ensures |q| == |ids|
  {
    seq(|ids|, i requires 0 <= i < |ids| => jobs[ids[i]].request)
  }

  function ShownTenant(jobs: map<nat, Job>, x: OracleTenant): (r: Tenant)
    requires forall i :: 0 <= i < |x.queue| ==> x.queue[i] in jobs
  {
    Tenant(Requests(jobs, x.queue), x.deficit, x.visitOpen)
  }

  /** The oracle's table behind the tool's. */
  function Shown(jobs: map<nat, Job>, ts: seq<OracleTenant>): (us: seq<Tenant>)
    requires AllServable(jobs, ts)
    ensures |us| == |ts|
  {
    seq(|ts|, t requires 0 <= t < |ts| =>
      assert forall i :: 0 <= i < |ts[t].queue| ==> Servable(jobs, t, ts[t].queue[i]);
      ShownTenant(jobs, ts[t]))
  }

  function Loaded(queues: seq<seq<nat>>): (r: seq<OracleTenant>) {
    seq(|queues|, t requires 0 <= t < |queues| => OracleTenant(queues[t], 0, false))
  }

  /** How many jobs are queued. */
  function Waiting(ts: seq<OracleTenant>): (r: nat) {
    if ts == [] then 0 else |ts[0].queue| + Waiting(ts[1..])
  }

  lemma {:induction false} WaitingUpdate(ts: seq<OracleTenant>, t: nat, x: OracleTenant)
    requires t < |ts|
    ensures Waiting(ts[t := x]) == Waiting(ts) - |ts[t].queue| + |x.queue|
  {
    if t == 0 {
      assert ts[t := x][1..] == ts[1..];
    } else {
      assert ts[t := x][1..] == ts[1..][t - 1 := x];
      WaitingUpdate(ts[1..], t - 1, x);
    }
  }

  lemma {:induction false} WaitingIsRemaining(ts: seq<OracleTenant>, us: seq<Tenant>)
    requires |ts| == |us| && forall t :: 0 <= t < |ts| ==> |ts[t].queue| == |us[t].queue|
    ensures Waiting(ts) == Remaining(us)
  {
    if ts != [] {
      WaitingIsRemaining(ts[1..], us[1..]);
      QueueLoadCount(us[0].queue);
    }
  }

  lemma {:induction false} NobodyWaits(ts: seq<OracleTenant>, t: nat)
    requires Waiting(ts) == 0 && t < |ts|
    ensures ts[t].queue == []
  {
    if t > 0 {
      NobodyWaits(ts[1..], t - 1);
    }
  }

  /** A visit changes one tenant, whose queue stays or loses a job it may serve. */
  predicate Follows(jobs: map<nat, Job>, t: nat, was: OracleTenant, x: OracleTenant) {
    x.queue == was.queue || (was.queue != [] && Servable(jobs, t, was.queue[0]) && x.queue == was.queue[1..])
  }

  lemma ServableUpdate(jobs: map<nat, Job>, ts: seq<OracleTenant>, t: nat, x: OracleTenant)
    requires t < |ts| && Follows(jobs, t, ts[t], x)
    ensures AllServable(jobs, ts[t := x]) <==> AllServable(jobs, ts)
  {
    hide Servable;
    var us, q := ts[t := x], ts[t].queue;
    if AllServable(jobs, us) {
      forall u, i | 0 <= u < |ts| && 0 <= i < |ts[u].queue| ensures Servable(jobs, u, ts[u].queue[i]) {
        if u != t || x.queue == q {
          assert us[u].queue == ts[u].queue;
          assert Servable(jobs, u, us[u].queue[i]);
        } else if i > 0 {
          assert Servable(jobs, u, us[u].queue[i - 1]);
        }
      }
    }
    if AllServable(jobs, ts) {
      forall u, i | 0 <= u < |us| && 0 <= i < |us[u].queue| ensures Servable(jobs, u, us[u].queue[i]) {
        if u != t || x.queue == q {
          assert us[u].queue == ts[u].queue;
          assert Servable(jobs, u, ts[u].queue[i]);
        } else {
          assert Servable(jobs, u, ts[u].queue[i + 1]);
        }
      }
    }
  }

  lemma ShownUpdate(jobs: map<nat, Job>, ts: seq<OracleTenant>, t: nat, x: OracleTenant)
    requires t < |ts| && AllServable(jobs, ts) && AllServable(jobs, ts[t := x])
    ensures forall i :: 0 <= i < |ts[t].queue| ==> ts[t].queue[i] in jobs
    ensures forall i :: 0 <= i < |x.queue| ==> x.queue[i] in jobs
    ensures Shown(jobs, ts)[t] == ShownTenant(jobs, ts[t])
    ensures Shown(jobs, ts[t := x]) == Shown(jobs, ts)[t := ShownTenant(jobs, x)]
  {
    hide ShownTenant;
    assert ts[t := x][t] == x;
    forall i | 0 <= i < |x.queue| ensures x.queue[i] in jobs {
      assert Servable(jobs, t, ts[t := x][t].queue[i]);
    }
  }

  /** What the tool changes at the cursor is what the oracle changes there. */
  lemma Changed(jobs: map<nat, Job>, before: seq<OracleTenant>, at: nat, x: OracleTenant)
    requires at < |before| && Follows(jobs, at, before[at], x)
    ensures AllServable(jobs, before[at := x]) <==> AllServable(jobs, before)
    ensures AllServable(jobs, before) ==>
      && (forall i :: 0 <= i < |before[at].queue| ==> before[at].queue[i] in jobs)
      && (forall i :: 0 <= i < |x.queue| ==> x.queue[i] in jobs)
      && Shown(jobs, before)[at] == ShownTenant(jobs, before[at])
      && Shown(jobs, before[at := x]) == Shown(jobs, before)[at := ShownTenant(jobs, x)]
    ensures Waiting(before[at := x]) == Waiting(before) - |before[at].queue| + |x.queue|
  {
    hide AllServable, Shown, Follows, ShownTenant;
    ServableUpdate(jobs, before, at, x);
    WaitingUpdate(before, at, x);
    if AllServable(jobs, before) {
      ShownUpdate(jobs, before, at, x);
    }
  }

  lemma HeadServable(jobs: map<nat, Job>, ts: seq<OracleTenant>, t: nat)
    requires t < |ts| && ts[t].queue != [] && AllServable(jobs, ts)
    ensures Servable(jobs, t, ts[t].queue[0])
  {
  }

  lemma RequestsTail(jobs: map<nat, Job>, ids: seq<nat>)
    requires ids != [] && forall i :: 0 <= i < |ids| ==> ids[i] in jobs
    ensures Requests(jobs, ids)[0] == jobs[ids[0]].request && Requests(jobs, ids[1..]) == Requests(jobs, ids)[1..]
  {
  }

  /** One visit of the tool; `valid` is false when the head is no service job of its tenant. */
  method VisitOnce(cfg: ValidatedConfig, jobs: map<nat, Job>, before: seq<OracleTenant>, at: nat)
    returns (tenants: seq<OracleTenant>, cursor: nat, picked: seq<Request>, valid: bool)
    requires at < |before| == |cfg.tenants|
    ensures cursor < |tenants| == |before|
    ensures valid <==> before[at].queue == [] || Servable(jobs, at, before[at].queue[0])
    ensures AllServable(jobs, before) ==> valid
    ensures valid ==> (AllServable(jobs, tenants) <==> AllServable(jobs, before))
    ensures valid && AllServable(jobs, before) ==>
      Visit(cfg, Table(Shown(jobs, before), at)) == Outcome(Table(Shown(jobs, tenants), cursor), picked)
    ensures valid ==> Waiting(tenants) + |picked| == Waiting(before)
  {
    hide AllServable, Shown, Waiting, BoundedAdd;
    tenants, cursor, picked, valid := before, at, [], true;
    var tenant := tenants[cursor];
    var next := if cursor + 1 == |tenants| then 0 else cursor + 1;
    if tenant.queue == [] {
      tenants := tenants[cursor := tenant.(deficit := 0, visitOpen := false)];
      cursor := next;
      Changed(jobs, before, at, tenants[at]);
      return;
    }
    if AllServable(jobs, before) {
      HeadServable(jobs, before, at);
    }
    if !tenant.visitOpen {
      tenant := tenant.(deficit := BoundedAdd(tenant.deficit, cfg.tenants[cursor].quantum, cfg.deficitCap),
                        visitOpen := true);
    }
    if tenant.queue[0] !in jobs {
      valid := false;
      return;
    }
    var job := jobs[tenant.queue[0]];
    if job.kind != ServiceJob || job.request.tenant != cursor {
      valid := false;
      return;
    }
    if job.request.work > tenant.deficit {
      tenants := tenants[cursor := tenant.(visitOpen := false)];
      cursor := next;
      Changed(jobs, before, at, tenants[at]);
      return;
    }
    tenant := tenant.(deficit := tenant.deficit - job.request.work, queue := tenant.queue[1..]);
    picked := [job.request];
    if tenant.queue == [] {
      tenants := tenants[cursor := tenant.(deficit := 0, visitOpen := false)];
      cursor := next;
    } else {
      tenants := tenants[cursor := tenant];
    }
    Changed(jobs, before, at, tenants[at]);
    if AllServable(jobs, before) {
      RequestsTail(jobs, before[at].queue);
    }
  }

  lemma NothingServable(jobs: map<nat, Job>, ts: seq<OracleTenant>)
    requires Waiting(ts) == 0
    ensures AllServable(jobs, ts)
  {
    forall t | 0 <= t < |ts| ensures ts[t].queue == [] {
      NobodyWaits(ts, t);
    }
  }

  lemma ShownRemaining(jobs: map<nat, Job>, ts: seq<OracleTenant>)
    requires AllServable(jobs, ts)
    ensures Remaining(Shown(jobs, ts)) == Waiting(ts)
  {
    hide Remaining, Waiting, AllServable;
    var us := Shown(jobs, ts);
    assert forall t :: 0 <= t < |ts| ==> |us[t].queue| == |ts[t].queue|;
    WaitingIsRemaining(ts, us);
  }

  lemma LoadedIsClosed(jobs: map<nat, Job>, queues: seq<seq<nat>>)
    requires AllServable(jobs, Loaded(queues))
    ensures forall t :: 0 <= t < |queues| ==> Shown(jobs, Loaded(queues))[t].deficit == 0
  {
  }

  /** Stopping early or at the end of the budget, the loop knows whether all jobs fit. */
  lemma BudgetDecides(cfg: ValidatedConfig, base: nat, o: Table, used: nat, budget: nat)
    requires QuantaAtLeast(cfg, base) && Proper(cfg, o) && used <= budget
    requires forall t :: 0 <= t < |o.tenants| ==> o.tenants[t].deficit <= cfg.deficitCap
    requires budget >= Remaining(o.tenants) * (cfg.deficitCap / base + 2) * |o.tenants|
    requires used == budget || Remaining(Visits(cfg, o, used).table.tenants) == 0
    ensures JobsFit(cfg, o.tenants) <==> Remaining(Visits(cfg, o, used).table.tenants) == 0
    ensures JobsFit(cfg, o.tenants) ==> CompletePlan(cfg, o, Visits(cfg, o, used).picked)
  {
    hide Visits, Remaining, JobsFit, QuantaAtLeast;
    PlanCompletesExactlyWhenJobsFit(cfg, base, o, budget);
    VisitsRemaining(cfg, o, used);
    VisitsRemaining(cfg, o, budget);
    VisitsPrefix(cfg, o, used, budget);
  }

  /** The plan, or an error when a job is missing, of the wrong kind or tenant, or above the cap. */
  method ExpectedDispatchPlan(cfg: ValidatedConfig, base: nat, jobs: map<nat, Job>, queues: seq<seq<nat>>)
    returns (plan: Result<seq<Request>>)
    requires |queues| == |cfg.tenants| > 0 && QuantaAtLeast(cfg, base)
    ensures plan.Ok? <==> AllServable(jobs, Loaded(queues)) && JobsFit(cfg, Shown(jobs, Loaded(queues)))
    ensures plan.Ok? ==> CompletePlan(cfg, Table(Shown(jobs, Loaded(queues)), 0), plan.value)
  {
    hide JobsFit, Visit, Remaining, AllServable, Shown, Waiting, CompletePlan;
    var tenants := Loaded(queues);
    ghost var start := tenants;
    var remaining := Waiting(tenants);
    var expectedCount := remaining;
    var trace: seq<Request> := [];
    var cursor: nat := 0;
    var maximumVisits := remaining * (cfg.deficitCap / base + 2) * |tenants|;
    var visits: nat := 0;
    while remaining > 0 && visits < maximumVisits
      invariant cursor < |tenants| == |cfg.tenants| && visits <= maximumVisits
      invariant remaining == Waiting(tenants) && |trace| + remaining == expectedCount
      invariant AllServable(jobs, tenants) <==> AllServable(jobs, start)
      invariant AllServable(jobs, start) ==>
        Visits(cfg, Table(Shown(jobs, start), 0), visits) == Outcome(Table(Shown(jobs, tenants), cursor), trace)
      decreases maximumVisits - visits
    {
      var picked, valid;
      tenants, cursor, picked, valid := VisitOnce(cfg, jobs, tenants, cursor);
      if !valid {
        return Err;
      }
      trace := trace + picked;
      remaining := remaining - |picked|;
      visits := visits + 1;
    }
    if remaining == 0 {
      NothingServable(jobs, tenants);
    }
    if AllServable(jobs, start) {
      ShownRemaining(jobs, start);
      ShownRemaining(jobs, tenants);
      LoadedIsClosed(jobs, queues);
      BudgetDecides(cfg, base, Table(Shown(jobs, start), 0), visits, maximumVisits);
    }
    if remaining != 0 || |trace| != expectedCount {
      return Err;
    }
    return Ok(trace);
  }
}
