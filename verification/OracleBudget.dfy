/**
 * The visit budget of the oracle: remaining x (cap / base quantum + 2) x tenants
 * visits finish every plan whose jobs fit the credit cap, and no budget finishes a
 * plan with a job that does not.
 */
module OracleBudget {
  import opened Prelude
  import opened AdmissionConfig
  import opened Scheduling
  import opened SchedulingInvariant
  import opened Fairness
  import opened FundingCost
  import opened Oracle

  /** No quantum is below the base. */
  predicate QuantaAtLeast(cfg: ValidatedConfig, base: nat) {
    base > 0 && forall i :: 0 <= i < |cfg.tenants| ==> base <= cfg.tenants[i].quantum
  }

  ghost predicate JobsFit(cfg: ValidatedConfig, ts: seq<Tenant>) {
    forall t, r :: 0 <= t < |ts| && r in ts[t].queue ==> r.work <= cfg.deficitCap
  }

  /** How many more visits can close on a tenant before its credit reaches every job. */
  function ClosesLeft(cap: nat, base: nat, t: Tenant): (r: nat)
    requires base > 0
  {
    (if t.deficit < cap then (cap - 1 - t.deficit) / base else 0) + (if t.visitOpen then 1 else 0)
  }

  /** Visits that may still pass before tenant `t` must be served. */
  function Patience(cfg: ValidatedConfig, base: nat, o: Table, t: nat): (r: nat)
    requires base > 0 && o.cursor < |o.tenants| && t < |o.tenants|
  {
    ClosesLeft(cfg.deficitCap, base, o.tenants[t]) * |o.tenants| + Distance(o.cursor, t, |o.tenants|)
  }

  lemma OneStepLess(x: nat, y: nat, base: nat)
    requires base > 0 && y + base <= x
    ensures y / base + 1 <= x / base
  {
    var k := y / base;
    assert y == k * base + y % base;
    OneMore(k, base);
    QuotientAtLeast(x, k + 1, base);
  }

  lemma QuotientAtLeast(x: nat, k: nat, base: nat)
    requires base > 0 && k * base <= x
    ensures k <= x / base
  {
    var q := x / base;
    if q < k {
      MulMono(q + 1, k, base);
      assert false;
    }
  }

  /** A visit that closes on `t` uses up one of its closes. */
  lemma CloseUses(cfg: ValidatedConfig, base: nat, o: Table)
    requires QuantaAtLeast(cfg, base) && o.cursor < |o.tenants| == |cfg.tenants| && JobsFit(cfg, o.tenants)
    requires o.tenants[o.cursor].queue != [] && Visit(cfg, o).picked == []
    ensures var after := Visit(cfg, o).table;
      && |after.tenants| == |o.tenants| && after.cursor == Next(o).cursor
      && after.tenants[o.cursor].queue == o.tenants[o.cursor].queue
      && ClosesLeft(cfg.deficitCap, base, after.tenants[o.cursor]) + 1
         <= ClosesLeft(cfg.deficitCap, base, o.tenants[o.cursor])
      && forall u :: 0 <= u < |o.tenants| && u != o.cursor ==> after.tenants[u] == o.tenants[u]
  {
    var t := o.tenants[o.cursor];
    var head := t.queue[0];
    assert head in t.queue;
    if !t.visitOpen {
      var q := cfg.tenants[o.cursor].quantum;
      OneStepLess(cfg.deficitCap - 1 - t.deficit, cfg.deficitCap - 1 - (t.deficit + q), base);
    }
  }

  /** A visit that serves nobody brings the service of any waiting tenant nearer. */
  lemma PatienceShrinks(cfg: ValidatedConfig, base: nat, o: Table, t: nat)
    requires QuantaAtLeast(cfg, base) && o.cursor < |o.tenants| == |cfg.tenants| && JobsFit(cfg, o.tenants)
    requires t < |o.tenants| && o.tenants[t].queue != [] && Visit(cfg, o).picked == []
    ensures var after := Visit(cfg, o).table;
      && after.cursor < |after.tenants| == |cfg.tenants| && JobsFit(cfg, after.tenants)
      && after.tenants[t].queue == o.tenants[t].queue
      && Patience(cfg, base, after, t) + 1 <= Patience(cfg, base, o, t)
  {
    hide ClosesLeft;
    var n := |o.tenants|;
    VisitKeepsJobs(cfg, o);
    if o.tenants[o.cursor].queue != [] {
      hide Visit;
      CloseUses(cfg, base, o);
      var after := Visit(cfg, o).table;
      if o.cursor == t {
        var was, left := ClosesLeft(cfg.deficitCap, base, o.tenants[t]),
          ClosesLeft(cfg.deficitCap, base, after.tenants[t]);
        MulMono(left + 1, was, n);
        OneMore(left, n);
      }
    }
  }

  lemma VisitKeepsJobs(cfg: ValidatedConfig, o: Table)
    requires o.cursor < |o.tenants| == |cfg.tenants| && JobsFit(cfg, o.tenants)
    ensures JobsFit(cfg, Visit(cfg, o).table.tenants) && |Visit(cfg, o).table.tenants| == |o.tenants|
  {
    hide BoundedAdd;
    var after := Visit(cfg, o).table.tenants;
    assert forall u :: 0 <= u < |o.tenants| && u != o.cursor ==> after[u] == o.tenants[u];
    assert forall r :: r in after[o.cursor].queue ==> r in o.tenants[o.cursor].queue;
  }

  /** Runs of visits compose. */
  lemma {:induction false} VisitsCompose(cfg: ValidatedConfig, o: Table, j: nat, k: nat)
    requires o.cursor < |o.tenants| == |cfg.tenants|
    ensures var first := Visits(cfg, o, j);
      var second := Visits(cfg, first.table, k);
      Visits(cfg, o, j + k) == Outcome(second.table, first.picked + second.picked)
  {
    hide Visit;
    if k == 0 {
      assert Visits(cfg, o, j).picked + [] == Visits(cfg, o, j).picked;
    } else {
      VisitsCompose(cfg, o, j, k - 1);
    }
  }

  lemma OneVisit(cfg: ValidatedConfig, o: Table)
    requires o.cursor < |o.tenants| == |cfg.tenants|
    ensures Visits(cfg, o, 1) == Visit(cfg, o)
  {
    hide Visit;
    assert Visits(cfg, o, 0) == Outcome(o, []);
    assert [] + Visit(cfg, o).picked == Visit(cfg, o).picked;
  }

  /** Within its patience a waiting tenant sees somebody served. */
  lemma {:induction false} SomebodyIsServed(cfg: ValidatedConfig, base: nat, o: Table, t: nat)
    requires QuantaAtLeast(cfg, base) && o.cursor < |o.tenants| == |cfg.tenants| && JobsFit(cfg, o.tenants)
    requires t < |o.tenants| && o.tenants[t].queue != []
    ensures Visits(cfg, o, Patience(cfg, base, o, t) + 1).picked != []
    decreases Patience(cfg, base, o, t)
  {
    hide Visit, Patience, JobsFit, Visits;
    var p := Patience(cfg, base, o, t);
    OneVisit(cfg, o);
    if Visit(cfg, o).picked == [] {
      PatienceShrinks(cfg, base, o, t);
      var after := Visit(cfg, o).table;
      SomebodyIsServed(cfg, base, after, t);
      var k := Patience(cfg, base, after, t) + 1;
      VisitsCompose(cfg, o, 1, k);
      VisitsPrefix(cfg, o, 1 + k, p + 1);
    } else {
      VisitsPrefix(cfg, o, 1, p + 1);
    }
  }

  lemma QuotientMono(x: nat, y: nat, base: nat)
    requires base > 0 && x <= y
    ensures x / base <= y / base
  {
    assert x == (x / base) * base + x % base;
    QuotientAtLeast(y, x / base, base);
  }

  /** No tenant's patience exceeds one factor of the budget. */
  lemma PatienceBound(cfg: ValidatedConfig, base: nat, o: Table, t: nat)
    requires base > 0 && o.cursor < |o.tenants| && t < |o.tenants|
    ensures Patience(cfg, base, o, t) + 1 <= (cfg.deficitCap / base + 2) * |o.tenants|
  {
    var k := cfg.deficitCap / base;
    var x := o.tenants[t];
    if x.deficit < cfg.deficitCap {
      QuotientMono(cfg.deficitCap - 1 - x.deficit, cfg.deficitCap, base);
    }
    MulMono(ClosesLeft(cfg.deficitCap, base, x), k + 1, |o.tenants|);
    assert (k + 2) * |o.tenants| == (k + 1) * |o.tenants| + |o.tenants|;
  }

  lemma {:induction false} VisitsKeepJobs(cfg: ValidatedConfig, o: Table, k: nat)
    requires o.cursor < |o.tenants| == |cfg.tenants| && JobsFit(cfg, o.tenants)
    ensures JobsFit(cfg, Visits(cfg, o, k).table.tenants)
  {
    hide Visit, JobsFit;
    if k > 0 {
      VisitsKeepJobs(cfg, o, k - 1);
      VisitKeepsJobs(cfg, Visits(cfg, o, k - 1).table);
    } else {
      assert Visits(cfg, o, 0) == Outcome(o, []);
    }
  }

  /** One factor of the budget takes at least one job from the queues. */
  lemma RoundServes(cfg: ValidatedConfig, base: nat, o: Table)
    requires QuantaAtLeast(cfg, base) && o.cursor < |o.tenants| == |cfg.tenants| && JobsFit(cfg, o.tenants)
    requires Remaining(o.tenants) > 0
    ensures var round := (cfg.deficitCap / base + 2) * |o.tenants|;
      Remaining(Visits(cfg, o, round).table.tenants) < Remaining(o.tenants)
  {
    hide JobsFit, Visits, TotalLoad, Patience;
    var round := (cfg.deficitCap / base + 2) * |o.tenants|;
    NothingQueued(o.tenants);
    var t :| 0 <= t < |o.tenants| && o.tenants[t].queue != [];
    SomebodyIsServed(cfg, base, o, t);
    PatienceBound(cfg, base, o, t);
    VisitsPrefix(cfg, o, Patience(cfg, base, o, t) + 1, round);
    VisitsRemaining(cfg, o, round);
  }

  /** The tool's budget finishes every plan whose jobs fit the cap. */
  lemma {:induction false} BudgetSuffices(cfg: ValidatedConfig, base: nat, o: Table, budget: nat)
    requires QuantaAtLeast(cfg, base) && o.cursor < |o.tenants| == |cfg.tenants| && JobsFit(cfg, o.tenants)
    requires budget >= Remaining(o.tenants) * (cfg.deficitCap / base + 2) * |o.tenants|
    ensures Remaining(Visits(cfg, o, budget).table.tenants) == 0
    decreases Remaining(o.tenants)
  {
    hide JobsFit, Visits, TotalLoad, Remaining;
    var left := Remaining(o.tenants);
    VisitsRemaining(cfg, o, budget);
    if left > 0 {
      var round := (cfg.deficitCap / base + 2) * |o.tenants|;
      RoundServes(cfg, base, o);
      var after := Visits(cfg, o, round).table;
      Rounds(left, Remaining(after.tenants), cfg.deficitCap / base + 2, |o.tenants|);
      VisitsKeepJobs(cfg, o, round);
      BudgetSuffices(cfg, base, after, budget - round);
      VisitsCompose(cfg, o, round, budget - round);
    }
  }

  lemma Rounds(left: nat, after: nat, k: nat, n: nat)
    requires after < left
    ensures after * k * n + k * n <= left * k * n
  {
    Commute(after, k, n);
    assert after * k * n == after * (k * n);
    assert left * k * n == left * (k * n);
    MulMono(after + 1, left, k * n);
    OneMore(after, k * n);
  }

  // ---------------------------------------------------------------------
  // A job above the cap
  // ---------------------------------------------------------------------

  /** Credit never exceeds the cap, so a job above it stays at its place for good. */
  ghost predicate Stuck(cfg: ValidatedConfig, o: Table, t: nat, r: Request) {
    && o.cursor < |o.tenants| == |cfg.tenants| && t < |o.tenants|
    && r in o.tenants[t].queue && r.work > cfg.deficitCap && o.tenants[t].deficit <= cfg.deficitCap
  }

  lemma StuckStays(cfg: ValidatedConfig, o: Table, t: nat, r: Request)
    requires Stuck(cfg, o, t, r)
    ensures Stuck(cfg, Visit(cfg, o).table, t, r)
  {
    var q := o.tenants[t].queue;
    if o.cursor == t && r != q[0] {
      assert r in q[1..];
    }
  }

  lemma {:induction false} StuckForever(cfg: ValidatedConfig, o: Table, t: nat, r: Request, k: nat)
    requires Stuck(cfg, o, t, r)
    ensures Stuck(cfg, Visits(cfg, o, k).table, t, r)
  {
    hide Visit, Stuck;
    InRange(cfg, o, t, r);
    if k == 0 {
      assert Visits(cfg, o, 0) == Outcome(o, []);
    } else {
      StuckForever(cfg, o, t, r, k - 1);
      StuckStays(cfg, Visits(cfg, o, k - 1).table, t, r);
    }
  }

  lemma InRange(cfg: ValidatedConfig, o: Table, t: nat, r: Request)
    requires Stuck(cfg, o, t, r)
    ensures o.cursor < |o.tenants| == |cfg.tenants|
  {
  }

  /**
   * Started without credit, the oracle's plan completes within the tool's budget
   * exactly when every job fits the cap; otherwise no budget completes it.
   */
  lemma PlanCompletesExactlyWhenJobsFit(cfg: ValidatedConfig, base: nat, o: Table, budget: nat)
    requires QuantaAtLeast(cfg, base) && o.cursor < |o.tenants| == |cfg.tenants|
    requires forall t :: 0 <= t < |o.tenants| ==> o.tenants[t].deficit <= cfg.deficitCap
    requires budget >= Remaining(o.tenants) * (cfg.deficitCap / base + 2) * |o.tenants|
    ensures Remaining(Visits(cfg, o, budget).table.tenants) == 0 <==> JobsFit(cfg, o.tenants)
  {
    hide Visits, TotalLoad;
    if JobsFit(cfg, o.tenants) {
      BudgetSuffices(cfg, base, o, budget);
    } else {
      var t, r :| 0 <= t < |o.tenants| && r in o.tenants[t].queue && r.work > cfg.deficitCap;
      StuckForever(cfg, o, t, r, budget);
      NothingQueued(Visits(cfg, o, budget).table.tenants);
    }
  }
}
