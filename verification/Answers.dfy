/**
 * Why clients get the answers they get: over every run, each decision and each
 * terminal outcome on record was caused by one event whose circumstances it names.
 */
module Answers {
  import opened Prelude
  import opened AdmissionConfig
  import opened Scheduling
  import opened SchedulingInvariant
  import opened Fairness
  import opened FundingCost
  import opened Outcomes

  /** The addition exceeds this limit and none before it in the order count, bytes, work. */
  predicate Exceeds(held: Load, bytes: nat, work: nat, limits: QueueLimits, resource: Resource) {
    match resource
    case CountResource => held.count + 1 > limits.count
    case BytesResource => held.count + 1 <= limits.count && held.bytes + bytes > limits.bytes
    case WorkResource =>
      held.count + 1 <= limits.count && held.bytes + bytes <= limits.bytes && held.work + work > limits.work
  }

  /** A submission that is looked at: the owner accepts work and its client is there. */
  ghost predicate LookedAt(s: State, e: Event, id: nat) {
    e.Admit? && e.sub.id == id && s.accepting && id !in s.canceled
  }

  /** It names tenant `t` and its deadline is ahead. */
  ghost predicate InTime(cfg: ValidatedConfig, s: State, e: Event, id: nat, t: nat) {
    && LookedAt(s, e, id) && e.sub.tenantID in cfg.tenantByID && cfg.tenantByID[e.sub.tenantID] == t
    && t < |s.tenants| == |cfg.tenants| && s.now < e.sub.deadline
  }

  /** Event `e` in state `s` answers entry `id` with `d`, and rightly. */
  ghost predicate Reason(cfg: ValidatedConfig, s: State, e: Event, id: nat, d: Decision) {
    match d
    case Dispatched =>
      e.Dispatch? && e.request.id == id
    case Shutdown =>
      e.Drop? && e.dropped.id == id && e.reason == OnDrain && !s.accepting && id !in s.canceled
    case QueueExpired =>
      || (e.Drop? && e.dropped.id == id && e.reason == OnDeadline && e.dropped.deadline <= s.now
          && !e.dropped.clientDeadline && id !in s.canceled)
      || (LookedAt(s, e, id) && e.sub.tenantID in cfg.tenantByID && e.sub.deadline <= s.now && !e.sub.clientDeadline)
    case CanceledQueued =>
      || (e.Drop? && e.dropped.id == id && (e.reason == OnCommand || id in s.canceled))
      || (e.Drop? && e.dropped.id == id && e.reason == OnDeadline && e.dropped.deadline <= s.now
         && e.dropped.clientDeadline)
      || (e.Admit? && e.sub.id == id && s.accepting && id in s.canceled)
      || (LookedAt(s, e, id) && e.sub.tenantID in cfg.tenantByID && e.sub.deadline <= s.now && e.sub.clientDeadline)
    case Draining =>
      e.Admit? && e.sub.id == id && !s.accepting
    case Invalid =>
      LookedAt(s, e, id) && e.sub.tenantID !in cfg.tenantByID
    case TenantRejected(resource) =>
      exists t: nat :: InTime(cfg, s, e, id, t)
                  && Exceeds(QueueLoad(s.tenants[t].queue), e.sub.bytes, e.sub.work, cfg.tenants[t].queue, resource)
    case GlobalRejected(resource) =>
      exists t: nat :: InTime(cfg, s, e, id, t)
                  && WithinQueue(More(QueueLoad(s.tenants[t].queue), e.sub.bytes, e.sub.work), cfg.tenants[t].queue)
                  && Exceeds(TotalLoad(s.tenants), e.sub.bytes, e.sub.work, cfg.globalQueue, resource)
  }

  lemma Configured(cfg: ValidatedConfig, s: State, id: nat)
    requires Sound(cfg) && Inv(cfg, s) && id in cfg.tenantByID
    ensures cfg.tenantByID[id] < |s.tenants| == |cfg.tenants|
  {
  }

  lemma RefusalReason(cfg: ValidatedConfig, s: State, sub: Submission)
    requires Sound(cfg) && Inv(cfg, s) && AdmitRefusal(cfg, s, sub).Some?
    ensures Reason(cfg, s, Admit(sub), sub.id, AdmitRefusal(cfg, s, sub).value)
  {
    hide QueueLoad, TotalLoad, Sound, Inv, QueueLimitFailure;
    if sub.tenantID in cfg.tenantByID {
      Configured(cfg, s, sub.tenantID);
      var t := cfg.tenantByID[sub.tenantID];
      if s.accepting && sub.id !in s.canceled && s.now < sub.deadline {
        assert InTime(cfg, s, Admit(sub), sub.id, t);
      }
    }
  }

  lemma ResolvedReason(cfg: ValidatedConfig, s: State, e: Event, id: nat)
    requires Sound(cfg) && Inv(cfg, s) && Enabled(cfg, s, e) && id in Apply(cfg, s, e).results && id !in s.results
    ensures Reason(cfg, s, e, id, Apply(cfg, s, e).results[id])
  {
    hide QueueLoad, TotalLoad, TenantLoad, FitsGlobal, FitsTenant, GlobalFull, Alive, Without, BoundedAdd, Sound, Inv,
      Settle, AdmitRefusal, Exceeds, InTime;
    ResolveStep(cfg, s, e);
    match e {
      case Admit(sub) =>
        if AdmitRefusal(cfg, s, sub).Some? {
          RefusalReason(cfg, s, sub);
        } else {
          EnqueueSized(cfg, s, sub);
        }
      case _ =>
    }
  }

  /** Every result of every run was caused by one event that it describes truly. */
  lemma {:induction false} EveryResultHasItsReason(cfg: ValidatedConfig, es: seq<Event>, id: nat) returns (k: nat)
    requires Sound(cfg) && Legal(cfg, Initial(cfg), es) && id in Run(cfg, Initial(cfg), es).results
    ensures k < |es| && Legal(cfg, Initial(cfg), es[..k])
    ensures Reason(cfg, Run(cfg, Initial(cfg), es[..k]), es[k], id, Run(cfg, Initial(cfg), es).results[id])
    decreases |es|
  {
    hide Sound, Inv, Enabled, Apply, Initial, Reason;
    InitialSilent(cfg);
    var n := |es| - 1;
    var mid := Run(cfg, Initial(cfg), es[..n]);
    InitialInv(cfg);
    RunInv(cfg, Initial(cfg), es[..n]);
    ResolveStep(cfg, mid, es[n]);
    if id in mid.results {
      k := EveryResultHasItsReason(cfg, es[..n], id);
      assert es[..n][..k] == es[..k];
    } else {
      k := n;
      ResolvedReason(cfg, mid, es[n], id);
    }
  }

  lemma ReleaseNames(cfg: ValidatedConfig, s: State, e: Event)
    requires Inv(cfg, s) && Enabled(cfg, s, e) && e.Release?
    ensures var after, id := Apply(cfg, s, e), e.finished.id;
      id in after.released && NamedOutcome(after.causes, id, e.serving, after.released[id])
  {
    hide Without, Inv;
  }

  /** A released entry is never signaled or released again, so its cause stays what it was. */
  lemma ReleasedStays(cfg: ValidatedConfig, s: State, e: Event, id: nat)
    requires Inv(cfg, s) && Enabled(cfg, s, e) && id in s.released
    ensures var after := Apply(cfg, s, e);
      && id in after.released && after.released[id] == s.released[id]
      && (id in after.causes <==> id in s.causes) && (id in s.causes ==> after.causes[id] == s.causes[id])
  {
    hide QueueLoad, TotalLoad, TenantLoad, FitsGlobal, FitsTenant, GlobalFull, Alive, Without, AdmitRefusal, BoundedAdd,
      Shape, Limits, UniqueQueued, UniqueIds, Unresolved, TerminalOutcome, DropDecision, Queued, Settle;
    match e {
      case Admit(sub) =>
        if AdmitRefusal(cfg, s, sub).None? {
          EnqueueSized(cfg, s, sub);
        }
      case _ =>
    }
  }

  /** Every terminal outcome of every run is named after the recorded cause, or else after the serving reported. */
  lemma {:induction false} EveryOutcomeIsNamed(cfg: ValidatedConfig, es: seq<Event>, id: nat) returns (k: nat)
    requires Sound(cfg) && Legal(cfg, Initial(cfg), es) && id in Run(cfg, Initial(cfg), es).released
    ensures k < |es| && es[k].Release? && es[k].finished.id == id
    ensures var end := Run(cfg, Initial(cfg), es); NamedOutcome(end.causes, id, es[k].serving, end.released[id])
    decreases |es|
  {
    hide Sound, Inv, Enabled, Apply, Initial;
    InitialSilent(cfg);
    var n := |es| - 1;
    var mid := Run(cfg, Initial(cfg), es[..n]);
    InitialInv(cfg);
    RunInv(cfg, Initial(cfg), es[..n]);
    ReleaseStep(cfg, mid, es[n]);
    if id in mid.released {
      k := EveryOutcomeIsNamed(cfg, es[..n], id);
      ReleasedStays(cfg, mid, es[n], id);
    } else {
      k := n;
      ReleaseNames(cfg, mid, es[n]);
    }
  }

  /** Who ended a permit: its client's departure or request, or a forced end after admission stopped. */
  ghost predicate CauseReason(s: State, e: Event, id: nat, c: Cause) {
    match c
    case ByShutdown => e.Signal? && e.signaled.id == id && e.cause == ByShutdown && !s.accepting
    case ByClient =>
      || (e.Signal? && e.signaled.id == id && e.cause == ByClient)
      || (e.Release? && e.finished.id == id && id in s.canceled)
  }

  lemma CauseStep(cfg: ValidatedConfig, s: State, e: Event, id: nat)
    requires Inv(cfg, s) && Enabled(cfg, s, e) && id in Apply(cfg, s, e).causes && id !in s.causes
    ensures CauseReason(s, e, id, Apply(cfg, s, e).causes[id])
  {
    hide QueueLoad, TotalLoad, TenantLoad, FitsGlobal, FitsTenant, GlobalFull, Alive, Without, AdmitRefusal, BoundedAdd,
      Inv, TerminalOutcome, DropDecision, Queued, Settle;
    match e {
      case Admit(sub) =>
        if AdmitRefusal(cfg, s, sub).None? {
          EnqueueSized(cfg, s, sub);
        }
      case _ =>
    }
  }

  lemma {:induction false} EveryCauseHasItsReason(cfg: ValidatedConfig, es: seq<Event>, id: nat) returns (k: nat)
    requires Sound(cfg) && Legal(cfg, Initial(cfg), es) && id in Run(cfg, Initial(cfg), es).causes
    ensures k < |es| && Legal(cfg, Initial(cfg), es[..k])
    ensures CauseReason(Run(cfg, Initial(cfg), es[..k]), es[k], id, Run(cfg, Initial(cfg), es).causes[id])
    decreases |es|
  {
    hide Sound, Inv, Enabled, Apply, CauseReason;
    var n := |es| - 1;
    var mid := Run(cfg, Initial(cfg), es[..n]);
    InitialInv(cfg);
    RunInv(cfg, Initial(cfg), es[..n]);
    ReleaseStep(cfg, mid, es[n]);
    if id in mid.causes {
      k := EveryCauseHasItsReason(cfg, es[..n], id);
      assert es[..n][..k] == es[..k];
    } else {
      k := n;
      CauseStep(cfg, mid, es[n], id);
    }
  }
}
