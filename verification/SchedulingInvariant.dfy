/** What every run of the scheduler keeps: credit bounds, limits and identity. */
module SchedulingInvariant {
  import opened Prelude
  import opened AdmissionConfig
  import opened Scheduling

  // ---------------------------------------------------------------------
  // Loads
  // ---------------------------------------------------------------------

  lemma {:induction false} QueueLoadAppend(q: seq<Request>, r: Request)
    ensures IsSum(QueueLoad(q + [r]), QueueLoad(q), LoadOf(r))
  {
    if q == [] {
      assert (q + [r])[1..] == [];
    } else {
      assert (q + [r])[1..] == q[1..] + [r];
      QueueLoadAppend(q[1..], r);
    }
  }

  lemma {:induction false} QueueLoadWithout(q: seq<Request>, r: Request)
    requires r in q
    ensures IsSum(QueueLoad(q), QueueLoad(Without(q, r)), LoadOf(r))
  {
    if q[0] != r {
      assert Without(q, r)[1..] == Without(q[1..], r);
      QueueLoadWithout(q[1..], r);
    }
  }

  /** The share of one request in tenant `t`'s load. */
  function OwnLoad(r: Request, t: nat): (result: Load) {
    if r.tenant == t then LoadOf(r) else Nothing()
  }

  lemma {:induction false} TenantLoadAppend(q: seq<Request>, r: Request, t: nat)
    ensures IsSum(TenantLoad(q + [r], t), TenantLoad(q, t), OwnLoad(r, t))
  {
    if q == [] {
      assert (q + [r])[1..] == [];
    } else {
      assert (q + [r])[1..] == q[1..] + [r];
      TenantLoadAppend(q[1..], r, t);
    }
  }

  lemma {:induction false} TenantLoadWithout(q: seq<Request>, r: Request, t: nat)
    requires r in q
    ensures IsSum(TenantLoad(q, t), TenantLoad(Without(q, r), t), OwnLoad(r, t))
  {
    if q[0] != r {
      assert Without(q, r)[1..] == Without(q[1..], r);
      TenantLoadWithout(q[1..], r, t);
    }
  }

  /** Replacing one tenant moves the total by the difference of its two queues. */
  lemma {:induction false} TotalLoadUpdate(ts: seq<Tenant>, i: nat, t: Tenant, change: Load)
    requires i < |ts|
    ensures IsSum(QueueLoad(t.queue), QueueLoad(ts[i].queue), change) ==>
      IsSum(TotalLoad(ts[i := t]), TotalLoad(ts), change)
    ensures IsSum(QueueLoad(ts[i].queue), QueueLoad(t.queue), change) ==>
      IsSum(TotalLoad(ts), TotalLoad(ts[i := t]), change)
  {
    hide QueueLoad;
    if i == 0 {
      assert ts[i := t][1..] == ts[1..];
    } else {
      assert ts[i := t][1..] == ts[1..][i - 1 := t];
      TotalLoadUpdate(ts[1..], i - 1, t, change);
    }
  }

  lemma {:induction false} QueueLoadCount(q: seq<Request>)
    ensures QueueLoad(q).count == |q|
  {
    if q != [] {
      QueueLoadCount(q[1..]);
    }
  }

  /** Nothing is queued exactly when every tenant's queue is empty. */
  lemma {:induction false} NothingQueued(ts: seq<Tenant>)
    ensures TotalLoad(ts).count == 0 <==> forall i :: 0 <= i < |ts| ==> ts[i].queue == []
  {
    hide QueueLoad;
    if ts != [] {
      var rest := ts[1..];
      QueueLoadCount(ts[0].queue);
      NothingQueued(rest);
      assert forall i :: 0 < i < |ts| ==> ts[i] == rest[i - 1];
      if TotalLoad(rest).count != 0 {
        var i :| 0 <= i < |rest| && rest[i].queue != [];
        assert ts[i + 1].queue != [];
      }
    }
  }

  /** Sum of the per-tenant parts of a list. */
  function TenantSum(q: seq<Request>, n: nat): (r: Load) {
    if n == 0 then Nothing() else
      var rest := TenantSum(q, n - 1);
      var own := TenantLoad(q, n - 1);
      Load(rest.count + own.count, rest.bytes + own.bytes, rest.work + own.work)
  }

  lemma {:induction false} TenantSumStep(q: seq<Request>, n: nat)
    requires q != []
    ensures IsSum(TenantSum(q, n), TenantSum(q[1..], n), if q[0].tenant < n then LoadOf(q[0]) else Nothing())
  {
    if n > 0 {
      TenantSumStep(q, n - 1);
    }
  }

  lemma {:induction false} TenantSumEmpty(n: nat)
    ensures TenantSum([], n) == Nothing()
  {
    if n > 0 {
      TenantSumEmpty(n - 1);
    }
  }

  /** The global in-flight load is the sum of the tenants' loads. */
  lemma {:induction false} GlobalIsTenantSum(q: seq<Request>, n: nat)
    requires forall r :: r in q ==> r.tenant < n
    ensures QueueLoad(q) == TenantSum(q, n)
  {
    if q == [] {
      TenantSumEmpty(n);
    } else {
      TenantSumStep(q, n);
      GlobalIsTenantSum(q[1..], n);
    }
  }

  // ---------------------------------------------------------------------
  // Queues as ordered lists without repetition
  // ---------------------------------------------------------------------

  /** First come, first served: admission order is queue order. */
  ghost predicate Increasing(q: seq<Request>) {
    forall i, j :: 0 <= i < j < |q| ==> q[i].sequence < q[j].sequence
  }

  ghost predicate Distinct(q: seq<Request>) {
    forall i, j :: 0 <= i < j < |q| ==> q[i] != q[j]
  }

  lemma {:induction false} WithoutMembers(q: seq<Request>, r: Request)
    requires Distinct(q)
    ensures forall x :: x in Without(q, r) <==> x in q && x != r
    ensures Distinct(Without(q, r))
  {
    if q != [] {
      assert forall x :: x in q <==> x == q[0] || x in q[1..];
      if q[0] == r {
        assert forall i :: 0 < i < |q| ==> q[i] != q[0];
      } else {
        WithoutMembers(q[1..], r);
        var w := Without(q[1..], r);
        assert forall x :: x in [q[0]] + w <==> x == q[0] || x in w;
        assert q[0] !in q[1..];
      }
    }
  }

  lemma {:induction false} WithoutIncreasing(q: seq<Request>, r: Request)
    requires Increasing(q)
    ensures Increasing(Without(q, r))
    ensures forall x :: x in Without(q, r) ==> x in q
  {
    hide Increasing;
    if q != [] {
      FirstBefore(q);
    }
    if q != [] && q[0] != r {
      WithoutIncreasing(q[1..], r);
      FirstBefore(q);
      PutFirst(q[0], Without(q[1..], r));
    }
  }

  lemma FirstBefore(q: seq<Request>)
    requires Increasing(q) && q != []
    ensures Increasing(q[1..]) && forall x :: x in q[1..] ==> q[0].sequence < x.sequence && x in q
  {
  }

  lemma PutFirst(r: Request, w: seq<Request>)
    requires Increasing(w) && forall x :: x in w ==> r.sequence < x.sequence
    ensures Increasing([r] + w)
  {
    var q := [r] + w;
    forall i, j | 0 <= i < j < |q| ensures q[i].sequence < q[j].sequence {
      assert q[j] == w[j - 1] && w[j - 1] in w;
      assert i > 0 ==> q[i] == w[i - 1];
    }
  }

  lemma WithoutHead(q: seq<Request>)
    requires q != []
    ensures Without(q, q[0]) == q[1..]
  {
  }

  // ---------------------------------------------------------------------
  // The invariant
  // ---------------------------------------------------------------------

  ghost predicate CreditOk(cfg: ValidatedConfig, t: Tenant, quantum: nat) {
    && (t.queue == [] ==> t.deficit == 0 && !t.visitOpen)
    && (!t.visitOpen ==> t.deficit <= cfg.maxRequestUnits - 1)
    && (t.visitOpen ==> t.deficit <= cfg.maxRequestUnits - 1 + quantum)
  }

  ghost predicate RequestOk(cfg: ValidatedConfig, r: Request) {
    r.tenant < |cfg.tenants| && 0 < r.work <= cfg.maxRequestUnits && 0 < r.bytes <= cfg.maxBodyBytes
  }

  ghost predicate QueueOk(cfg: ValidatedConfig, t: nat, q: seq<Request>, last: nat) {
    && Increasing(q)
    && (forall r :: r in q ==> r.tenant == t && RequestOk(cfg, r) && r.sequence <= last)
  }

  ghost predicate Shape(cfg: ValidatedConfig, s: State) {
    && |s.tenants| == |cfg.tenants|
    && s.cursor < |s.tenants|
    && (forall t :: 0 <= t < |s.tenants| ==> CreditOk(cfg, s.tenants[t], cfg.tenants[t].quantum))
    && (forall t :: 0 <= t < |s.tenants| ==> QueueOk(cfg, t, s.tenants[t].queue, s.sequence))
    && (forall r :: r in s.inflight ==> RequestOk(cfg, r) && r.sequence <= s.sequence)
  }

  predicate WithinQueue(l: Load, limits: QueueLimits) {
    l.count <= limits.count && l.bytes <= limits.bytes && l.work <= limits.work
  }

  predicate WithinInflight(l: Load, limits: InflightLimits) {
    l.count <= limits.count && l.work <= limits.work
  }

  /** Tenant and global limits over queued and in-flight requests. */
  ghost predicate Limits(cfg: ValidatedConfig, s: State)
    requires |s.tenants| == |cfg.tenants|
  {
    && (forall t :: 0 <= t < |s.tenants| ==> WithinQueue(QueueLoad(s.tenants[t].queue), cfg.tenants[t].queue))
    && (forall t :: 0 <= t < |s.tenants| ==> WithinInflight(TenantLoad(s.inflight, t), cfg.tenants[t].inflight))
    && WithinQueue(TotalLoad(s.tenants), cfg.globalQueue)
    && WithinInflight(QueueLoad(s.inflight), cfg.globalInflight)
  }

  ghost predicate Flying(s: State, id: nat) {
    exists r :: r in s.inflight && r.id == id
  }

  ghost predicate UniqueQueued(s: State) {
    forall r, x :: Queued(s, r) && Queued(s, x) && r.id == x.id ==> r == x
  }

  ghost predicate UniqueIds(q: seq<Request>) {
    forall i, j :: 0 <= i < j < |q| ==> q[i].id != q[j].id
  }

  ghost predicate Unresolved(s: State) {
    forall r :: Queued(s, r) ==> r.id !in s.results
  }

  /** A permit is live exactly while its request is in flight. */
  ghost predicate Permits(s: State) {
    && (forall r :: r in s.inflight ==> r.id in s.results && s.results[r.id] == Dispatched && r.id !in s.released)
    && (forall id :: id in s.released ==> id in s.results && s.results[id] == Dispatched)
    && (forall id :: id in s.results && s.results[id] == Dispatched && id !in s.released ==> Flying(s, id))
    && (forall id :: id in s.causes ==> id in s.results && s.results[id] == Dispatched)
  }

  /**
   * Each entry is in exactly one place: unresolved while queued, in flight while
   * it holds a permit that is not released, and in neither afterwards.
   */
  ghost predicate Identity(s: State) {
    UniqueQueued(s) && UniqueIds(s.inflight) && Unresolved(s) && Permits(s)
  }

  ghost predicate Inv(cfg: ValidatedConfig, s: State) {
    Shape(cfg, s) && Limits(cfg, s) && Identity(s)
  }

  // ---------------------------------------------------------------------
  // How membership changes
  // ---------------------------------------------------------------------

  ghost predicate Departs(e: Event, r: Request) {
    (e.Drop? && e.dropped == r) || (e.Dispatch? && e.request == r)
  }

  ghost predicate Arrives(cfg: ValidatedConfig, s: State, e: Event, r: Request) {
    && e.Admit? && AdmitRefusal(cfg, s, e.sub).None?
    && r == Request(e.sub.id, cfg.tenantByID[e.sub.tenantID], e.sub.bytes, e.sub.work, e.sub.deadline,
                    e.sub.clientDeadline, s.sequence + 1)
  }

  lemma LeaveQueued(cfg: ValidatedConfig, s: State, r: Request)
    requires Shape(cfg, s) && Queued(s, r)
    ensures forall x :: Queued(Leave(s, r), x) <==> Queued(s, x) && x != r
  {
    var q := s.tenants[r.tenant].queue;
    assert QueueOk(cfg, r.tenant, q, s.sequence);
    WithoutMembers(q, r);
    var after := Leave(s, r);
    assert after.tenants[r.tenant].queue == Without(q, r);
  }

  lemma EnqueueQueued(cfg: ValidatedConfig, s: State, sub: Submission)
    requires AdmitRefusal(cfg, s, sub).None?
    ensures forall x :: Queued(Enqueue(cfg, s, sub), x) <==> Queued(s, x) || Arrives(cfg, s, Admit(sub), x)
  {
    hide QueueLoad, TotalLoad, QueueLimitFailure;
    var t := cfg.tenantByID[sub.tenantID];
    var q := s.tenants[t].queue;
    var after := Enqueue(cfg, s, sub);
    var r := after.tenants[t].queue[|q|];
    assert after.tenants[t].queue == q + [r];
    assert forall x :: x in q + [r] <==> x in q || x == r;
  }

  lemma DispatchQueued(cfg: ValidatedConfig, s: State, r: Request)
    requires Shape(cfg, s) && Enabled(cfg, s, Dispatch(r))
    ensures forall x :: Queued(Apply(cfg, s, Dispatch(r)), x) <==> Queued(s, x) && x != r
  {
    hide QueueLoad, TotalLoad, TenantLoad, FitsGlobal, FitsTenant, GlobalFull, Alive;
    var q := s.tenants[r.tenant].queue;
    assert QueueOk(cfg, r.tenant, q, s.sequence);
    WithoutMembers(q, r);
    var after := Apply(cfg, s, Dispatch(r));
    assert after.tenants[r.tenant].queue == Without(q, r);
    assert forall t :: 0 <= t < |s.tenants| && t != r.tenant ==> after.tenants[t] == s.tenants[t];
  }

  /** Requests enter a queue only by admission and leave it only by drop or dispatch. */
  lemma StepQueued(cfg: ValidatedConfig, s: State, e: Event)
    requires Shape(cfg, s) && Enabled(cfg, s, e)
    ensures forall x :: Queued(Apply(cfg, s, e), x) <==>
                        (Queued(s, x) && !Departs(e, x)) || Arrives(cfg, s, e, x)
  {
    hide QueueLoad, TotalLoad, TenantLoad, FitsGlobal, FitsTenant, GlobalFull, Alive, AdmitRefusal, Shape, Without;
    match e {
      case Admit(sub) =>
        if AdmitRefusal(cfg, s, sub).None? {
          EnqueueQueued(cfg, s, sub);
        }
      case Drop(r, reason) => LeaveQueued(cfg, s, r);
      case Dispatch(r) => DispatchQueued(cfg, s, r);
      case _ =>
    }
  }


  lemma StepInflight(cfg: ValidatedConfig, s: State, e: Event)
    requires UniqueIds(s.inflight) && Enabled(cfg, s, e)
    ensures forall x :: x in Apply(cfg, s, e).inflight <==>
                        (x in s.inflight && !(e.Release? && e.finished == x)) || e == Dispatch(x)
  {
    match e {
      case Dispatch(r) =>
        assert Apply(cfg, s, e).inflight == s.inflight + [r];
      case Release(r, serving) =>
        WithoutMembers(s.inflight, r);
      case _ =>
    }
  }

  // ---------------------------------------------------------------------
  // Preservation
  // ---------------------------------------------------------------------

  ghost predicate TenantShape(cfg: ValidatedConfig, t: nat, x: Tenant, last: nat)
    requires t < |cfg.tenants|
  {
    CreditOk(cfg, x, cfg.tenants[t].quantum) && QueueOk(cfg, t, x.queue, last)
  }

  lemma ShapeFromTenants(cfg: ValidatedConfig, s: State)
    requires |s.tenants| == |cfg.tenants| && s.cursor < |s.tenants|
    requires forall t :: 0 <= t < |s.tenants| ==> TenantShape(cfg, t, s.tenants[t], s.sequence)
    requires forall r :: r in s.inflight ==> RequestOk(cfg, r) && r.sequence <= s.sequence
    ensures Shape(cfg, s)
  {
    forall t | 0 <= t < |s.tenants|
      ensures CreditOk(cfg, s.tenants[t], cfg.tenants[t].quantum) && QueueOk(cfg, t, s.tenants[t].queue, s.sequence)
    {
      assert TenantShape(cfg, t, s.tenants[t], s.sequence);
    }
  }

  lemma ShapeTenant(cfg: ValidatedConfig, s: State, t: nat)
    requires Shape(cfg, s) && t < |s.tenants|
    ensures TenantShape(cfg, t, s.tenants[t], s.sequence)
  {
  }

  /** Removing a request keeps a tenant in shape; an emptied queue is settled. */
  lemma SettleShape(cfg: ValidatedConfig, t: nat, x: Tenant, r: Request, last: nat)
    requires t < |cfg.tenants| && TenantShape(cfg, t, x, last)
    ensures TenantShape(cfg, t, Settle(x.(queue := Without(x.queue, r))), last)
  {
    hide Without;
    WithoutIncreasing(x.queue, r);
    assert x.queue != [] ==> RequestOk(cfg, x.queue[0]);
  }

  lemma EnqueueShape(cfg: ValidatedConfig, s: State, sub: Submission)
    requires Sound(cfg) && Shape(cfg, s) && WellFormed(cfg, sub) && AdmitRefusal(cfg, s, sub).None?
    ensures Shape(cfg, Enqueue(cfg, s, sub))
  {
    hide QueueLoad, TotalLoad, QueueLimitFailure, Sound;
    var after := Enqueue(cfg, s, sub);
    var home := cfg.tenantByID[sub.tenantID];
    forall t | 0 <= t < |s.tenants| ensures TenantShape(cfg, t, after.tenants[t], after.sequence) {
      ShapeTenant(cfg, s, t);
      var q := s.tenants[t].queue;
      if t == home {
        var r := after.tenants[t].queue[|q|];
        assert after.tenants[t].queue == q + [r];
        assert forall x :: x in q + [r] <==> x in q || x == r;
        assert forall i :: 0 <= i < |q| ==> q[i] in q;
      }
    }
    ShapeFromTenants(cfg, after);
  }

  /** In every reachable state the cap is never reached: funding is exact addition. */
  lemma FundingIsExact(cfg: ValidatedConfig, s: State, t: nat)
    requires Sound(cfg) && Shape(cfg, s) && t < |s.tenants| && !s.tenants[t].visitOpen
    ensures BoundedAdd(s.tenants[t].deficit, cfg.tenants[t].quantum, cfg.deficitCap)
            == s.tenants[t].deficit + cfg.tenants[t].quantum
  {
    hide FundingBound;
    assert SoundTenant(cfg, cfg.tenants[t]);
  }

  lemma DispatchShape(cfg: ValidatedConfig, s: State, r: Request)
    requires Shape(cfg, s) && Enabled(cfg, s, Dispatch(r))
    ensures Shape(cfg, Apply(cfg, s, Dispatch(r)))
  {
    hide QueueLoad, TotalLoad, TenantLoad, FitsGlobal, FitsTenant, GlobalFull, Alive, Without;
    ShapeTenant(cfg, s, r.tenant);
    var x := s.tenants[r.tenant];
    var spent := x.(deficit := x.deficit - r.work);
    SettleShape(cfg, r.tenant, spent, r, s.sequence);
    var after := Apply(cfg, s, Dispatch(r));
    assert after.tenants[r.tenant] == Settle(spent.(queue := Without(x.queue, r)));
    forall t | 0 <= t < |s.tenants| ensures TenantShape(cfg, t, after.tenants[t], after.sequence) {
      ShapeTenant(cfg, s, t);
    }
    assert r in x.queue;
    ShapeFromTenants(cfg, after);
  }

  lemma DropShape(cfg: ValidatedConfig, s: State, r: Request, reason: Reason)
    requires Shape(cfg, s) && Enabled(cfg, s, Drop(r, reason))
    ensures Shape(cfg, Apply(cfg, s, Drop(r, reason)))
  {
    hide Without;
    var after := Apply(cfg, s, Drop(r, reason));
    forall t | 0 <= t < |s.tenants| ensures TenantShape(cfg, t, after.tenants[t], after.sequence) {
      ShapeTenant(cfg, s, t);
      SettleShape(cfg, t, s.tenants[t], r, s.sequence);
    }
    ShapeFromTenants(cfg, after);
  }

  lemma VisitShape(cfg: ValidatedConfig, s: State, e: Event)
    requires Sound(cfg) && Shape(cfg, s) && Enabled(cfg, s, e)
    requires e.Skip? || e.Fund? || e.Block? || e.Close? || e.Rewind?
    ensures Shape(cfg, Apply(cfg, s, e))
  {
    hide QueueLoad, TotalLoad, TenantLoad, FitsGlobal, FitsTenant, GlobalFull, Alive, Without, BoundedAdd, Sound;
    var after := Apply(cfg, s, e);
    if e.Fund? {
      FundingIsExact(cfg, s, e.tenant);
    }
    forall t | 0 <= t < |s.tenants| ensures TenantShape(cfg, t, after.tenants[t], after.sequence) {
      ShapeTenant(cfg, s, t);
    }
    ShapeFromTenants(cfg, after);
  }

  lemma ShapeStep(cfg: ValidatedConfig, s: State, e: Event)
    requires Sound(cfg) && Shape(cfg, s) && Identity(s) && Enabled(cfg, s, e)
    ensures Shape(cfg, Apply(cfg, s, e))
  {
    hide QueueLoad, TotalLoad, TenantLoad, FitsGlobal, FitsTenant, GlobalFull, Alive, Without, AdmitRefusal, Sound,
      CreditOk, QueueOk;
    match e {
      case Admit(sub) =>
        if AdmitRefusal(cfg, s, sub).None? {
          EnqueueShape(cfg, s, sub);
        }
      case Drop(r, reason) => DropShape(cfg, s, r, reason);
      case Dispatch(r) => DispatchShape(cfg, s, r);
      case Skip(_) => VisitShape(cfg, s, e);
      case Fund(_) => VisitShape(cfg, s, e);
      case Block(_) => VisitShape(cfg, s, e);
      case Close(_) => VisitShape(cfg, s, e);
      case Rewind => VisitShape(cfg, s, e);
      case Release(r, serving) =>
        StepInflight(cfg, s, e);
      case _ =>
    }
  }

  lemma EnqueueLimits(cfg: ValidatedConfig, s: State, sub: Submission)
    requires Shape(cfg, s) && Limits(cfg, s) && AdmitRefusal(cfg, s, sub).None?
    ensures Limits(cfg, Enqueue(cfg, s, sub))
  {
    hide QueueLoad, TotalLoad, TenantLoad, Shape;
    assert |s.tenants| == |cfg.tenants| by { Sized(cfg, s); }
    var after := Enqueue(cfg, s, sub);
    var t := cfg.tenantByID[sub.tenantID];
    var q := s.tenants[t].queue;
    var r := after.tenants[t].queue[|q|];
    QueueLoadAppend(q, r);
    TotalLoadUpdate(s.tenants, t, after.tenants[t], LoadOf(r));
  }

  lemma Sized(cfg: ValidatedConfig, s: State)
    requires Shape(cfg, s)
    ensures |s.tenants| == |cfg.tenants|
  {
  }

  /** A departure lowers its own queue's load and the total by the same amount. */
  lemma LeaveLoads(s: State, r: Request)
    requires Queued(s, r)
    ensures IsSum(QueueLoad(s.tenants[r.tenant].queue), QueueLoad(Leave(s, r).tenants[r.tenant].queue), LoadOf(r))
    ensures IsSum(TotalLoad(s.tenants), TotalLoad(Leave(s, r).tenants), LoadOf(r))
  {
    hide QueueLoad, TotalLoad, Without;
    var q := s.tenants[r.tenant].queue;
    QueueLoadWithout(q, r);
    var x := Leave(s, r).tenants[r.tenant];
    assert x.queue == Without(q, r);
    TotalLoadUpdate(s.tenants, r.tenant, x, LoadOf(r));
  }

  lemma LeaveLimits(cfg: ValidatedConfig, s: State, r: Request)
    requires |s.tenants| == |cfg.tenants| && Limits(cfg, s) && Queued(s, r)
    ensures Limits(cfg, Leave(s, r))
  {
    hide QueueLoad, TotalLoad, TenantLoad, Without;
    LeaveLoads(s, r);
  }

  /** Counters count what the queues hold: credit and flags do not matter. */
  lemma {:induction false} TotalLoadSameQueues(xs: seq<Tenant>, ys: seq<Tenant>)
    requires |xs| == |ys| && forall t :: 0 <= t < |xs| ==> xs[t].queue == ys[t].queue
    ensures TotalLoad(xs) == TotalLoad(ys)
  {
    if xs != [] {
      TotalLoadSameQueues(xs[1..], ys[1..]);
    }
  }

  ghost function Spend(s: State, r: Request): (result: State)
    requires r.tenant < |s.tenants| && r.work <= s.tenants[r.tenant].deficit
  {
    s.(tenants := s.tenants[r.tenant := s.tenants[r.tenant].(deficit := s.tenants[r.tenant].deficit - r.work)])
  }

  lemma DispatchLimits(cfg: ValidatedConfig, s: State, r: Request)
    requires |s.tenants| == |cfg.tenants| && Limits(cfg, s) && Enabled(cfg, s, Dispatch(r))
    ensures Limits(cfg, Apply(cfg, s, Dispatch(r)))
  {
    hide QueueLoad, TotalLoad, TenantLoad, Without, GlobalFull, Alive;
    var spent := Spend(s, r);
    TotalLoadSameQueues(s.tenants, spent.tenants);
    LeaveLimits(cfg, spent, r);
    var left := Leave(spent, r);
    var after := Apply(cfg, s, Dispatch(r));
    assert after.tenants == left.tenants && after.inflight == s.inflight + [r];
    QueueLoadAppend(s.inflight, r);
    forall t | 0 <= t < |s.tenants| ensures WithinInflight(TenantLoad(after.inflight, t), cfg.tenants[t].inflight) {
      TenantLoadAppend(s.inflight, r, t);
    }
  }

  lemma ReleaseLimits(cfg: ValidatedConfig, s: State, r: Request, serving: Serving)
    requires |s.tenants| == |cfg.tenants| && Limits(cfg, s) && r in s.inflight
    ensures Limits(cfg, Apply(cfg, s, Release(r, serving)))
  {
    hide QueueLoad, TotalLoad, TenantLoad, Without;
    QueueLoadWithout(s.inflight, r);
    forall t | 0 <= t < |s.tenants| {
      TenantLoadWithout(s.inflight, r, t);
    }
  }

  lemma EnqueueSized(cfg: ValidatedConfig, s: State, sub: Submission)
    requires AdmitRefusal(cfg, s, sub).None?
    ensures |Enqueue(cfg, s, sub).tenants| == |s.tenants|
    ensures Enqueue(cfg, s, sub) == s.(sequence := s.sequence + 1, tenants := Enqueue(cfg, s, sub).tenants)
  {
  }

  lemma LimitsStep(cfg: ValidatedConfig, s: State, e: Event)
    requires Shape(cfg, s) && Limits(cfg, s) && Enabled(cfg, s, e)
    ensures |Apply(cfg, s, e).tenants| == |cfg.tenants| && Limits(cfg, Apply(cfg, s, e))
  {
    hide QueueLoad, TotalLoad, TenantLoad, FitsGlobal, FitsTenant, GlobalFull, Alive, Without, AdmitRefusal;
    Sized(cfg, s);
    match e {
      case Admit(sub) =>
        if AdmitRefusal(cfg, s, sub).None? {
          EnqueueLimits(cfg, s, sub);
          EnqueueSized(cfg, s, sub);
        }
      case Drop(r, reason) => LeaveLimits(cfg, s, r);
      case Dispatch(r) => DispatchLimits(cfg, s, r);
      case Release(r, serving) => ReleaseLimits(cfg, s, r, serving);
      case Skip(_) => TotalLoadSameQueues(s.tenants, Apply(cfg, s, e).tenants);
      case Fund(_) => TotalLoadSameQueues(s.tenants, Apply(cfg, s, e).tenants);
      case Close(_) => TotalLoadSameQueues(s.tenants, Apply(cfg, s, e).tenants);
      case _ =>
    }
  }

  /** Adding one request to a load that is within its limits. */
  function More(l: Load, bytes: nat, work: nat): (r: Load) { Load(l.count + 1, l.bytes + bytes, l.work + work) }

  lemma FitsExactly(held: Load, bytes: nat, work: nat, limits: QueueLimits)
    requires WithinQueue(held, limits)
    ensures QueueLimitFailure(held, bytes, work, limits).None? <==> WithinQueue(More(held, bytes, work), limits)
  {
  }

  /**
   * A submission is queued exactly when the owner accepts work, its client is there,
   * its tenant is configured, its deadline is ahead, and the tenant's queue and all
   * queues together stay within their limits with it.
   */
  lemma AdmittedExactlyWithinLimits(cfg: ValidatedConfig, s: State, sub: Submission)
    requires Sound(cfg) && Inv(cfg, s)
    ensures AdmitRefusal(cfg, s, sub).None? <==>
      && s.accepting && sub.id !in s.canceled && sub.deadline > s.now
      && sub.tenantID in cfg.tenantByID
      && (var t := cfg.tenantByID[sub.tenantID];
          t < |s.tenants| == |cfg.tenants|
          && WithinQueue(More(QueueLoad(s.tenants[t].queue), sub.bytes, sub.work), cfg.tenants[t].queue)
          && WithinQueue(More(TotalLoad(s.tenants), sub.bytes, sub.work), cfg.globalQueue))
  {
    hide QueueLoad, TotalLoad, TenantLoad, QueueLimitFailure, WithinQueue, Shape, Identity;
    Sized(cfg, s);
    if sub.tenantID in cfg.tenantByID {
      var t := cfg.tenantByID[sub.tenantID];
      FitsExactly(QueueLoad(s.tenants[t].queue), sub.bytes, sub.work, cfg.tenants[t].queue);
      FitsExactly(TotalLoad(s.tenants), sub.bytes, sub.work, cfg.globalQueue);
    }
  }

  lemma RefusalKinds(cfg: ValidatedConfig, s: State, sub: Submission)
    ensures AdmitRefusal(cfg, s, sub) != Some(Dispatched)
  {
  }

  lemma PermitsUnmoved(s: State, after: State, id: nat, d: Decision)
    requires Permits(s)
    requires after.inflight == s.inflight && after.released == s.released && after.causes == s.causes
    requires after.results == s.results || (id !in s.results && d != Dispatched && after.results == s.results[id := d])
    ensures Permits(after)
  {
    assert forall i :: Flying(s, i) ==> Flying(after, i);
  }

  lemma AdmitIdentity(cfg: ValidatedConfig, s: State, sub: Submission)
    requires Shape(cfg, s) && Identity(s) && Enabled(cfg, s, Admit(sub))
    ensures Identity(Apply(cfg, s, Admit(sub)))
  {
    hide QueueLoad, TotalLoad, AdmitRefusal, Shape, Queued, Permits;
    StepQueued(cfg, s, Admit(sub));
    var after := Apply(cfg, s, Admit(sub));
    var refusal := AdmitRefusal(cfg, s, sub);
    RefusalKinds(cfg, s, sub);
    if refusal.None? {
      EnqueueSized(cfg, s, sub);
      PermitsUnmoved(s, after, sub.id, Draining);
    } else {
      PermitsUnmoved(s, after, sub.id, refusal.value);
    }
  }

  lemma DropIdentity(cfg: ValidatedConfig, s: State, r: Request, reason: Reason)
    requires Shape(cfg, s) && Identity(s) && Enabled(cfg, s, Drop(r, reason))
    ensures Identity(Apply(cfg, s, Drop(r, reason)))
  {
    hide Shape, Queued, Without, Permits;
    StepQueued(cfg, s, Drop(r, reason));
    PermitsUnmoved(s, Apply(cfg, s, Drop(r, reason)), r.id, DropDecision(r.id in s.canceled, r, reason));
  }

  lemma PermitGranted(s: State, after: State, r: Request)
    requires Permits(s) && r.id !in s.results
    requires after.inflight == s.inflight + [r] && after.released == s.released && after.causes == s.causes
    requires after.results == s.results[r.id := Dispatched]
    ensures Permits(after)
  {
    assert forall x :: x in after.inflight <==> x in s.inflight || x == r;
    assert forall i :: Flying(s, i) ==> Flying(after, i);
    assert Flying(after, r.id);
  }

  lemma DispatchIdentity(cfg: ValidatedConfig, s: State, r: Request)
    requires Shape(cfg, s) && Identity(s) && Enabled(cfg, s, Dispatch(r))
    ensures Identity(Apply(cfg, s, Dispatch(r)))
  {
    hide QueueLoad, TotalLoad, TenantLoad, FitsGlobal, FitsTenant, GlobalFull, Alive, Shape, Without, Permits,
      UniqueIds;
    assert Queued(s, r);
    StepQueued(cfg, s, Dispatch(r));
    var after := Apply(cfg, s, Dispatch(r));
    assert after.inflight == s.inflight + [r] && after.results == s.results[r.id := Dispatched];
    PermitGranted(s, after, r);
    AppendUnique(s, r);
  }

  lemma AppendUnique(s: State, r: Request)
    requires UniqueIds(s.inflight) && Permits(s) && r.id !in s.results
    ensures UniqueIds(s.inflight + [r])
  {
    assert forall i :: 0 <= i < |s.inflight| ==> s.inflight[i] in s.inflight;
  }

  /** Identifiers stay distinct when one of them leaves. */
  lemma {:induction false} WithoutUnique(q: seq<Request>, r: Request)
    requires UniqueIds(q)
    ensures UniqueIds(Without(q, r))
    ensures forall x :: x in Without(q, r) ==> x in q
  {
    if q != [] && q[0] != r {
      WithoutUnique(q[1..], r);
      var w := Without(q[1..], r);
      assert forall i :: 0 <= i < |w| ==> w[i] in q[1..];
      assert forall x :: x in q[1..] ==> q[0].id != x.id;
    }
  }

  lemma PermitReturned(s: State, after: State, r: Request, terminal: Terminal)
    requires Permits(s) && UniqueIds(s.inflight) && r in s.inflight
    requires forall x :: x in after.inflight <==> x in s.inflight && x != r
    requires after.released == s.released[r.id := terminal] && after.results == s.results
    requires forall id :: id in after.causes ==> id in s.causes || id == r.id
    ensures Permits(after)
  {
    forall id | id in after.results && after.results[id] == Dispatched && id !in after.released
      ensures Flying(after, id)
    {
      assert Flying(s, id);
      var x :| x in s.inflight && x.id == id;
      assert x in after.inflight;
    }
    forall x | x in after.inflight ensures x.id != r.id {
      var i :| 0 <= i < |s.inflight| && s.inflight[i] == x;
      var j :| 0 <= j < |s.inflight| && s.inflight[j] == r;
    }
  }

  lemma ReleaseIdentity(cfg: ValidatedConfig, s: State, r: Request, serving: Serving)
    requires Shape(cfg, s) && Identity(s) && r in s.inflight
    ensures Identity(Apply(cfg, s, Release(r, serving)))
  {
    hide Shape, Queued, Without, Permits, TerminalOutcome;
    var e := Release(r, serving);
    StepQueued(cfg, s, e);
    StepInflight(cfg, s, e);
    WithoutUnique(s.inflight, r);
    var after := Apply(cfg, s, e);
    PermitReturned(s, after, r, TerminalOutcome(CauseAtFinish(s, r), serving));
  }

  lemma SignalIdentity(cfg: ValidatedConfig, s: State, r: Request, cause: Cause)
    requires Shape(cfg, s) && Identity(s) && Enabled(cfg, s, Signal(r, cause))
    ensures Identity(Apply(cfg, s, Signal(r, cause)))
  {
    hide Shape;
    var after := Apply(cfg, s, Signal(r, cause));
    assert forall x :: Queued(after, x) == Queued(s, x);
    assert forall i :: Flying(s, i) ==> Flying(after, i);
  }

  lemma QuietIdentity(cfg: ValidatedConfig, s: State, e: Event)
    requires Shape(cfg, s) && Identity(s) && Enabled(cfg, s, e)
    requires !e.Admit? && !e.Drop? && !e.Dispatch? && !e.Release? && !e.Signal?
    ensures Identity(Apply(cfg, s, e))
  {
    hide QueueLoad, TotalLoad, TenantLoad, FitsGlobal, FitsTenant, GlobalFull, Alive, Shape, Queued, Permits,
      BoundedAdd;
    StepQueued(cfg, s, e);
    var after := Apply(cfg, s, e);
    PermitsUnmoved(s, after, 0, Draining);
  }

  /** No entry is ever in two places, and no outcome is ever given twice. */
  lemma IdentityStep(cfg: ValidatedConfig, s: State, e: Event)
    requires Shape(cfg, s) && Identity(s) && Enabled(cfg, s, e)
    ensures Identity(Apply(cfg, s, e))
  {
    hide Enabled, Apply, Shape, Identity;
    match e {
      case Admit(sub) => AdmitIdentity(cfg, s, sub);
      case Drop(r, reason) => DropIdentity(cfg, s, r, reason);
      case Dispatch(r) => DispatchIdentity(cfg, s, r);
      case Release(r, serving) =>
        assert r in s.inflight by { ReleaseGuard(cfg, s, r, serving); }
        ReleaseIdentity(cfg, s, r, serving);
      case Signal(r, cause) => SignalIdentity(cfg, s, r, cause);
      case _ => QuietIdentity(cfg, s, e);
    }
  }

  lemma ReleaseGuard(cfg: ValidatedConfig, s: State, r: Request, serving: Serving)
    requires Enabled(cfg, s, Release(r, serving))
    ensures r in s.inflight
  {
  }

  /** One event keeps the whole invariant. */
  lemma InvStep(cfg: ValidatedConfig, s: State, e: Event)
    requires Sound(cfg) && Inv(cfg, s) && Enabled(cfg, s, e)
    ensures Inv(cfg, Apply(cfg, s, e))
  {
    hide Shape, Limits, Identity, Enabled, Apply, Sound;
    Sized(cfg, s);
    ShapeStep(cfg, s, e);
    LimitsStep(cfg, s, e);
    IdentityStep(cfg, s, e);
  }

  lemma InitialInv(cfg: ValidatedConfig)
    requires Sound(cfg)
    ensures Inv(cfg, Initial(cfg))
  {
    var s := Initial(cfg);
    NothingQueued(s.tenants);
    InitialLoads(s.tenants);
  }

  lemma {:induction false} InitialLoads(ts: seq<Tenant>)
    requires forall t :: 0 <= t < |ts| ==> ts[t].queue == []
    ensures TotalLoad(ts) == Nothing()
  {
    if ts != [] {
      InitialLoads(ts[1..]);
    }
  }

  /** Every state of every run satisfies the invariant. */
  lemma {:induction false} RunInv(cfg: ValidatedConfig, s: State, es: seq<Event>)
    requires Sound(cfg) && Inv(cfg, s) && Legal(cfg, s, es)
    ensures Inv(cfg, Run(cfg, s, es))
  {
    hide Inv, Sound, Enabled, Apply;
    if es != [] {
      var k := |es| - 1;
      RunInv(cfg, s, es[..k]);
      InvStep(cfg, Run(cfg, s, es[..k]), es[k]);
    }
  }
}
