/** The processor bound of one scheduling opportunity: how often credit can be granted. */
module FundingCost {
  import opened Prelude
  import opened AdmissionConfig
  import opened Scheduling
  import opened SchedulingInvariant
  import opened Fairness

  /** The events one call of the pump can cause, with the readings between them. */
  predicate PumpEvent(e: Event) {
    || e.Tick? || e.ClientCancels? || e.Skip? || e.Fund? || e.Block? || e.Close? || e.Dispatch? || e.Rewind?
    || (e.Drop? && (e.reason == OnContext || e.reason == OnDeadline))
  }

  predicate PumpRun(es: seq<Event>) {
    forall i :: 0 <= i < |es| ==> PumpEvent(es[i])
  }

  function Dispatches(es: seq<Event>): (r: nat) {
    if es == [] then 0 else Dispatches(es[..|es| - 1]) + (if es[|es| - 1].Dispatch? then 1 else 0)
  }

  function AllFundings(es: seq<Event>): (r: nat) {
    if es == [] then 0 else AllFundings(es[..|es| - 1]) + (if es[|es| - 1].Fund? then 1 else 0)
  }

  /** No queue grows inside the pump. */
  lemma PumpStepNonempty(cfg: ValidatedConfig, s: State, e: Event, t: nat)
    requires Inv(cfg, s) && Enabled(cfg, s, e) && PumpEvent(e) && Nonempty(Apply(cfg, s, e), t)
    ensures Nonempty(s, t)
  {
    hide QueueLoad, TotalLoad, TenantLoad, FitsGlobal, FitsTenant, GlobalFull, Alive, BoundedAdd, Limits, Identity;
  }

  lemma {:induction false} PumpBacklog(cfg: ValidatedConfig, s: State, es: seq<Event>, t: nat)
    requires Sound(cfg) && Inv(cfg, s) && Legal(cfg, s, es) && PumpRun(es) && Nonempty(Run(cfg, s, es), t)
    ensures Backlogged(cfg, s, es, t)
    decreases |es|
  {
    hide Sound, Inv, Enabled, Apply;
    if es != [] {
      var k := |es| - 1;
      RunInv(cfg, s, es[..k]);
      assert PumpEvent(es[k]);
      PumpStepNonempty(cfg, Run(cfg, s, es[..k]), es[k], t);
      PumpBacklog(cfg, s, es[..k], t);
    }
  }

  lemma PumpStepInflight(cfg: ValidatedConfig, s: State, e: Event)
    requires Enabled(cfg, s, e) && PumpEvent(e)
    ensures Apply(cfg, s, e).inflight == if e.Dispatch? then s.inflight + [e.request] else s.inflight
  {
    hide QueueLoad, TotalLoad, TenantLoad, FitsGlobal, FitsTenant, GlobalFull, Alive, BoundedAdd, Without;
  }

  /** Each dispatch takes one in-flight place, and the pump gives none back. */
  lemma {:induction false} DispatchesFillSlots(cfg: ValidatedConfig, s: State, es: seq<Event>)
    requires Legal(cfg, s, es) && PumpRun(es)
    ensures |Run(cfg, s, es).inflight| == |s.inflight| + Dispatches(es)
    decreases |es|
  {
    hide Enabled, Apply;
    if es != [] {
      var k := |es| - 1;
      DispatchesFillSlots(cfg, s, es[..k]);
      assert PumpEvent(es[k]);
      PumpStepInflight(cfg, Run(cfg, s, es[..k]), es[k]);
    }
  }

  lemma DispatchWork(cfg: ValidatedConfig, s: State, r: Request)
    requires Inv(cfg, s) && Enabled(cfg, s, Dispatch(r))
    ensures r.work <= cfg.maxRequestUnits
  {
    hide QueueLoad, TotalLoad, TenantLoad, FitsGlobal, FitsTenant, GlobalFull, Alive, Limits, Identity;
    assert QueueOk(cfg, r.tenant, s.tenants[r.tenant].queue, s.sequence);
  }

  lemma {:induction false} ServedPerDispatch(cfg: ValidatedConfig, s: State, es: seq<Event>, t: nat)
    requires Sound(cfg) && Inv(cfg, s) && Legal(cfg, s, es)
    ensures Served(es, t) <= Dispatches(es) * cfg.maxRequestUnits
    decreases |es|
  {
    hide Sound, Inv, Enabled, Apply;
    if es != [] {
      var k := |es| - 1;
      ServedPerDispatch(cfg, s, es[..k], t);
      if es[k].Dispatch? {
        RunInv(cfg, s, es[..k]);
        DispatchWork(cfg, Run(cfg, s, es[..k]), es[k].request);
        OneMore(Dispatches(es[..k]), cfg.maxRequestUnits);
      }
    }
  }

  lemma OneMore(n: int, x: int)
    ensures (n + 1) * x == n * x + x
  {
  }

  lemma FundGuard(cfg: ValidatedConfig, s: State, t: nat)
    requires Inv(cfg, s) && Enabled(cfg, s, Fund(t))
    ensures t < |cfg.tenants| && Nonempty(s, t) && s.tenants[t].deficit <= cfg.maxRequestUnits - 1
    ensures |s.inflight| < cfg.globalInflight.count
  {
    hide TotalLoad, TenantLoad, FitsGlobal, FitsTenant, Alive, Identity, QueueLoad;
    QueueLoadCount(s.inflight);
  }

  /** Arithmetic core: credit spent on fewer than `slots` requests needs fewer fundings. */
  lemma RoundsLeft(f: nat, q: nat, d0: nat, served: nat, d: nat, dispatches: nat, slots: nat, units: nat)
    requires q > 0 && units > 0 && f * q + d0 == served + d
    requires d <= units - 1 && served <= dispatches * units && dispatches < slots
    ensures f + 1 <= CeilDiv(units, q) * slots
  {
    var rounds := CeilDiv(units, q);
    CeilDivReaches(units, q);
    MulMono(dispatches + 1, slots, units);
    OneMore(dispatches, units);
    assert f * q < slots * units;
    MulMono(units, rounds * q, slots);
    assert units * slots == slots * units;
    assert rounds * q * slots == rounds * slots * q by { Commute(rounds, q, slots); }
    if f >= rounds * slots {
      MulMono(rounds * slots, f, q);
      assert false;
    }
  }

  lemma Commute(a: nat, b: nat, c: nat)
    ensures a * b * c == a * c * b
  {
    assert a * b * c == a * (b * c);
    assert a * c * b == a * (c * b);
  }

  /**
   * One scheduling opportunity funds a tenant at most once for every round of
   * credit that each free in-flight place may need, whatever is canceled or
   * expires meanwhile.
   */
  lemma {:induction false} TenantFundings(cfg: ValidatedConfig, s: State, es: seq<Event>, t: nat)
    requires Sound(cfg) && Inv(cfg, s) && Legal(cfg, s, es) && PumpRun(es) && t < |cfg.tenants|
    ensures cfg.tenants[t].quantum > 0
    ensures Fundings(es, t) <= CeilDiv(cfg.maxRequestUnits, cfg.tenants[t].quantum) * cfg.globalInflight.count
    decreases |es|
  {
    hide Sound, Inv, Enabled, Apply, Served, CeilDiv, Backlogged;
    PositiveQuantum(cfg, t);
    if es == [] {
      MulMono(0, CeilDiv(cfg.maxRequestUnits, cfg.tenants[t].quantum), cfg.globalInflight.count);
    } else {
      var k := |es| - 1;
      var mid := Run(cfg, s, es[..k]);
      TenantFundings(cfg, s, es[..k], t);
      if es[k] == Fund(t) {
        RunInv(cfg, s, es[..k]);
        FundGuard(cfg, mid, t);
        PumpBacklog(cfg, s, es[..k], t);
        CreditConserved(cfg, s, es[..k], t);
        ServedPerDispatch(cfg, s, es[..k], t);
        DispatchesFillSlots(cfg, s, es[..k]);
        PositiveUnits(cfg);
        RoundsLeft(Fundings(es[..k], t), cfg.tenants[t].quantum, s.tenants[t].deficit, Served(es[..k], t),
                   mid.tenants[t].deficit, Dispatches(es[..k]), cfg.globalInflight.count, cfg.maxRequestUnits);
      }
    }
  }

  lemma PositiveQuantum(cfg: ValidatedConfig, t: nat)
    requires Sound(cfg) && t < |cfg.tenants|
    ensures cfg.tenants[t].quantum > 0
    ensures FundingBound(cfg.maxRequestUnits, cfg.tenants[t].quantum, |cfg.tenants|, cfg.globalInflight.count)
            <= 65536
  {
    assert SoundTenant(cfg, cfg.tenants[t]);
    assert FundingOk(cfg, cfg.tenants[t]);
  }

  function FundingsBelow(es: seq<Event>, n: nat): (r: nat) {
    if n == 0 then 0 else FundingsBelow(es, n - 1) + Fundings(es, n - 1)
  }

  lemma {:induction false} FundingsBelowStep(es: seq<Event>, n: nat)
    requires es != []
    ensures var e := es[|es| - 1];
      FundingsBelow(es, n) == FundingsBelow(es[..|es| - 1], n) + (if e.Fund? && e.tenant < n then 1 else 0)
  {
    if n > 0 {
      FundingsBelowStep(es, n - 1);
    }
  }

  lemma {:induction false} FundingsBelowEmpty(n: nat)
    ensures FundingsBelow([], n) == 0
  {
    if n > 0 {
      FundingsBelowEmpty(n - 1);
    }
  }

  /** Every funding belongs to one of the configured tenants. */
  lemma {:induction false} FundingsPartition(cfg: ValidatedConfig, s: State, es: seq<Event>)
    requires Legal(cfg, s, es)
    ensures AllFundings(es) == FundingsBelow(es, |cfg.tenants|)
    decreases |es|
  {
    hide Apply, PumpRoom, Alive;
    if es == [] {
      FundingsBelowEmpty(|cfg.tenants|);
    } else {
      FundingsBelowStep(es, |cfg.tenants|);
      FundingsPartition(cfg, s, es[..|es| - 1]);
    }
  }

  lemma {:induction false} FundingsBelowBound(es: seq<Event>, n: nat, each: nat)
    requires forall t :: 0 <= t < n ==> Fundings(es, t) <= each
    ensures FundingsBelow(es, n) <= n * each
  {
    if n > 0 {
      FundingsBelowBound(es, n - 1, each);
      OneMore(n - 1, each);
    }
  }

  /**
   * One call of the pump executes the funding step at most
   * ceil(MaxRequestUnits / smallest quantum) x tenants x in-flight places times.
   */
  lemma PumpFundings(cfg: ValidatedConfig, s: State, es: seq<Event>, least: nat)
    requires Sound(cfg) && Inv(cfg, s) && Legal(cfg, s, es) && PumpRun(es)
    requires 0 < least && forall t :: 0 <= t < |cfg.tenants| ==> least <= cfg.tenants[t].quantum
    ensures AllFundings(es) <= FundingBound(cfg.maxRequestUnits, least, |cfg.tenants|, cfg.globalInflight.count)
  {
    hide Sound, Inv, Legal, CeilDiv, PumpRun;
    var rounds := CeilDiv(cfg.maxRequestUnits, least);
    var each := rounds * cfg.globalInflight.count;
    forall t | 0 <= t < |cfg.tenants| ensures Fundings(es, t) <= each {
      TenantFundings(cfg, s, es, t);
      CeilDivAntitone(cfg.maxRequestUnits, least, cfg.tenants[t].quantum);
      MulMono(CeilDiv(cfg.maxRequestUnits, cfg.tenants[t].quantum), rounds, cfg.globalInflight.count);
    }
    FundingsPartition(cfg, s, es);
    FundingsBelowBound(es, |cfg.tenants|, each);
    Commute(rounds, |cfg.tenants|, cfg.globalInflight.count);
  }

  /** So the bound the validator enforces limits every reachable call of the pump. */
  lemma PumpWithinCpuBound(cfg: ValidatedConfig, s: State, es: seq<Event>)
    requires Sound(cfg) && Inv(cfg, s) && Legal(cfg, s, es) && PumpRun(es)
    ensures AllFundings(es) <= 65536
  {
    hide Inv, Legal, FundingBound, PumpRun, SoundTenant;
    var low := SmallestQuantum(cfg, |cfg.tenants|);
    PositiveQuantum(cfg, low);
    PumpFundings(cfg, s, es, cfg.tenants[low].quantum);
  }

  lemma {:induction false} SmallestQuantum(cfg: ValidatedConfig, n: nat) returns (low: nat)
    requires 0 < n <= |cfg.tenants|
    ensures low < n && forall t :: 0 <= t < n ==> cfg.tenants[low].quantum <= cfg.tenants[t].quantum
  {
    low := 0;
    if n > 1 {
      low := SmallestQuantum(cfg, n - 1);
      if cfg.tenants[n - 1].quantum < cfg.tenants[low].quantum {
        low := n - 1;
      }
    }
  }
}
