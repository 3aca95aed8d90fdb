/**
 * What the limits of a configuration are for: the bounds that validation asks for are
 * those under which an idle scheduler takes every well-formed submission and finds
 * room for every head, and no weaker ones do.
 */
module Capacity {
  import opened Prelude
  import opened AdmissionConfig
  import opened Scheduling
  import opened SchedulingInvariant

  /** Every tenant is registered under its identifier. */
  ghost predicate Numbered(cfg: ValidatedConfig) {
    && (forall t :: 0 <= t < |cfg.tenants| ==>
          cfg.tenants[t].id in cfg.tenantByID && cfg.tenantByID[cfg.tenants[t].id] == t)
    && (forall id :: id in cfg.tenantByID ==> cfg.tenantByID[id] < |cfg.tenants|)
  }

  /** The owner accepts work and holds none. */
  ghost predicate Resting(cfg: ValidatedConfig, s: State) {
    && |s.tenants| == |cfg.tenants| && s.accepting && s.inflight == []
    && forall t :: 0 <= t < |s.tenants| ==> s.tenants[t].queue == []
  }

  /** Nothing but capacity can stop this submission. */
  ghost predicate Presentable(cfg: ValidatedConfig, s: State, sub: Submission) {
    && WellFormed(cfg, sub) && sub.tenantID in cfg.tenantByID && sub.id !in s.canceled && sub.deadline > s.now
  }

  ghost predicate QueuesHoldOne(cfg: ValidatedConfig) {
    && QueueHoldsOne(cfg.globalQueue, cfg.maxBodyBytes, cfg.maxRequestUnits)
    && forall t :: 0 <= t < |cfg.tenants| ==> QueueHoldsOne(cfg.tenants[t].queue, cfg.maxBodyBytes, cfg.maxRequestUnits)
  }

  ghost predicate InflightHoldOne(cfg: ValidatedConfig) {
    && InflightHoldsOne(cfg.globalInflight, cfg.maxRequestUnits)
    && forall t :: 0 <= t < |cfg.tenants| ==> InflightHoldsOne(cfg.tenants[t].inflight, cfg.maxRequestUnits)
  }

  lemma RestingLoads(cfg: ValidatedConfig, s: State)
    requires Resting(cfg, s)
    ensures forall t :: 0 <= t < |s.tenants| ==> QueueLoad(s.tenants[t].queue) == Load(0, 0, 0)
    ensures TotalLoad(s.tenants) == Load(0, 0, 0)
    ensures QueueLoad(s.inflight) == Load(0, 0, 0) && forall t :: TenantLoad(s.inflight, t) == Load(0, 0, 0)
  {
    InitialLoads(s.tenants);
  }

  /** On a scheduler at rest only the limits of the empty queues decide. */
  lemma RestingRefusal(cfg: ValidatedConfig, s: State, sub: Submission)
    requires Numbered(cfg) && Resting(cfg, s) && Presentable(cfg, s, sub)
    ensures cfg.tenantByID[sub.tenantID] < |cfg.tenants|
    ensures AdmitRefusal(cfg, s, sub).None? <==>
      var own := cfg.tenants[cfg.tenantByID[sub.tenantID]].queue;
      && 1 <= own.count && sub.bytes <= own.bytes && sub.work <= own.work
      && 1 <= cfg.globalQueue.count && sub.bytes <= cfg.globalQueue.bytes && sub.work <= cfg.globalQueue.work
  {
    hide QueueLoad, TotalLoad, TenantLoad;
    RestingLoads(cfg, s);
  }

  /** The largest submission a configuration lets a client make for tenant `t`. */
  function Largest(cfg: ValidatedConfig, s: State, t: nat, id: nat): (sub: Submission)
    requires t < |cfg.tenants|
  {
    Submission(id, cfg.tenants[t].id, cfg.maxBodyBytes, cfg.maxRequestUnits, s.now + 1, false)
  }

  lemma {:induction false} Above(used: set<nat>) returns (bound: nat)
    ensures forall id :: id in used ==> id < bound
    decreases used
  {
    if used == {} {
      bound := 0;
    } else {
      var id :| id in used;
      var rest := Above(used - {id});
      bound := if id < rest then rest else id + 1;
      assert forall x :: x in used ==> x == id || x in used - {id};
    }
  }

  /**
   * A scheduler at rest admits every well-formed submission if and only if every
   * queue limit holds one request of the largest size. Drop any one of the bounds
   * and the largest submission of some tenant is refused for want of room.
   */
  lemma RestingAdmitsAllExactly(cfg: ValidatedConfig, s: State)
    requires 0 < cfg.maxBodyBytes && 0 < cfg.maxRequestUnits && |cfg.tenants| > 0
    requires Numbered(cfg) && Resting(cfg, s)
    ensures QueuesHoldOne(cfg) <==> forall sub :: Presentable(cfg, s, sub) ==> AdmitRefusal(cfg, s, sub).None?
  {
    hide AdmitRefusal;
    if QueuesHoldOne(cfg) {
      forall sub | Presentable(cfg, s, sub) ensures AdmitRefusal(cfg, s, sub).None? {
        RestingRefusal(cfg, s, sub);
      }
    }
    if forall sub :: Presentable(cfg, s, sub) ==> AdmitRefusal(cfg, s, sub).None? {
      var id := Above(s.canceled);
      forall t | 0 <= t < |cfg.tenants|
        ensures QueueHoldsOne(cfg.tenants[t].queue, cfg.maxBodyBytes, cfg.maxRequestUnits)
        ensures QueueHoldsOne(cfg.globalQueue, cfg.maxBodyBytes, cfg.maxRequestUnits)
      {
        var sub := Largest(cfg, s, t, id);
        assert Presentable(cfg, s, sub);
        RestingRefusal(cfg, s, sub);
      }
      assert 0 < |cfg.tenants|;
      assert QueueHoldsOne(cfg.tenants[0].queue, cfg.maxBodyBytes, cfg.maxRequestUnits);
    }
  }

  /**
   * With nothing in flight every request of permitted size fits its tenant's and the
   * global limits if and only if every in-flight limit holds one of the largest size.
   */
  lemma RestingFitsAllExactly(cfg: ValidatedConfig, s: State)
    requires 0 < cfg.maxBodyBytes && 0 < cfg.maxRequestUnits && |cfg.tenants| > 0 && s.inflight == []
    ensures InflightHoldOne(cfg) <==>
            forall r :: RequestOk(cfg, r) ==> FitsTenant(cfg, s, r) && FitsGlobal(cfg, s, r)
  {
    if forall r :: RequestOk(cfg, r) ==> FitsTenant(cfg, s, r) && FitsGlobal(cfg, s, r) {
      forall t | 0 <= t < |cfg.tenants|
        ensures InflightHoldsOne(cfg.tenants[t].inflight, cfg.maxRequestUnits)
        ensures InflightHoldsOne(cfg.globalInflight, cfg.maxRequestUnits)
      {
        assert RequestOk(cfg, Request(0, t, cfg.maxBodyBytes, cfg.maxRequestUnits, 0, false, 0));
      }
      assert InflightHoldsOne(cfg.tenants[0].inflight, cfg.maxRequestUnits);
    }
  }

  /** A limit is within another exactly when whatever keeps the first keeps the second. */
  lemma WithinExactly(inner: QueueLimits, outer: QueueLimits, tight: InflightLimits, wide: InflightLimits)
    ensures QueueWithin(inner, outer) <==> forall l :: WithinQueue(l, inner) ==> WithinQueue(l, outer)
    ensures InflightWithin(tight, wide) <==> forall l :: WithinInflight(l, tight) ==> WithinInflight(l, wide)
  {
    assert WithinQueue(Load(inner.count, inner.bytes, inner.work), inner);
    assert WithinInflight(Load(tight.count, 0, tight.work), tight);
  }

  /** From a credit of at most `most`, a funding by `quantum` is never cut by the cap. */
  ghost predicate NeverCut(most: nat, quantum: nat, cap: nat) {
    forall deficit: nat :: deficit <= most ==>
      BoundedAdd(deficit, quantum, cap) == deficit + quantum && deficit + quantum <= cap
  }

  /** The credit of a closed visit is never cut exactly under the caps that validation accepts. */
  lemma CapIsExact(maxUnits: nat, quantum: nat, cap: nat)
    requires maxUnits > 0
    ensures maxUnits - 1 + quantum <= cap <==> NeverCut(maxUnits - 1, quantum, cap)
  {
    var most: nat := maxUnits - 1;
    if NeverCut(most, quantum, cap) {
      assert BoundedAdd(most, quantum, cap) == most + quantum;
    }
  }

  /** A validated configuration has room: at rest nothing well formed is refused and every head fits. */
  lemma ValidatedHasRoom(cfg: ValidatedConfig, s: State, sub: Submission, r: Request)
    requires Sound(cfg) && Resting(cfg, s)
    ensures Presentable(cfg, s, sub) ==> AdmitRefusal(cfg, s, sub).None?
    ensures RequestOk(cfg, r) ==> FitsTenant(cfg, s, r) && FitsGlobal(cfg, s, r)
  {
    hide AdmitRefusal, FitsTenant, FitsGlobal;
    SoundHoldsOne(cfg);
    RestingAdmitsAllExactly(cfg, s);
    RestingFitsAllExactly(cfg, s);
  }

  lemma SoundHoldsOne(cfg: ValidatedConfig)
    requires Sound(cfg)
    ensures QueuesHoldOne(cfg) && InflightHoldOne(cfg) && Numbered(cfg) && |cfg.tenants| > 0
    ensures cfg.maxBodyBytes > 0 && cfg.maxRequestUnits > 0
  {
    forall t | 0 <= t < |cfg.tenants|
      ensures QueueHoldsOne(cfg.tenants[t].queue, cfg.maxBodyBytes, cfg.maxRequestUnits)
      ensures InflightHoldsOne(cfg.tenants[t].inflight, cfg.maxRequestUnits)
    {
      assert SoundTenant(cfg, cfg.tenants[t]);
    }
  }
}
