/**
 * Weighted fairness of deficit round robin over runs: credit is conserved, the
 * fundings of two backlogged tenants alternate, and so the work they are served
 * stays proportional to their quanta.
 */
module Fairness {
  import opened Prelude
  import opened AdmissionConfig
  import opened Scheduling
  import opened SchedulingInvariant

  /** How often tenant `t` is funded. */
  function Fundings(es: seq<Event>, t: nat): (r: nat) {
    if es == [] then 0 else
      Fundings(es[..|es| - 1], t) + (if es[|es| - 1] == Fund(t) then 1 else 0)
  }

  /** The work dispatched for tenant `t`. */
  function Served(es: seq<Event>, t: nat): (r: nat) {
    if es == [] then 0 else
      var e := es[|es| - 1];
      Served(es[..|es| - 1], t) + (if e.Dispatch? && e.request.tenant == t then e.request.work else 0)
  }

  ghost predicate Nonempty(s: State, t: nat) {
    t < |s.tenants| && s.tenants[t].queue != []
  }

  /** Tenant `t` has queued work at the start, at the end and at every state between. */
  ghost predicate Backlogged(cfg: ValidatedConfig, s: State, es: seq<Event>, t: nat)
    requires Legal(cfg, s, es)
    decreases |es|
  {
    Nonempty(Run(cfg, s, es), t) && (es != [] ==> Backlogged(cfg, s, es[..|es| - 1], t))
  }

  // ---------------------------------------------------------------------
  // Conservation of credit
  // ---------------------------------------------------------------------

  /** One event moves a backlogged tenant's credit by its funding minus its service. */
  lemma CreditStep(cfg: ValidatedConfig, s: State, e: Event, t: nat)
    requires Sound(cfg) && Inv(cfg, s) && Enabled(cfg, s, e)
    requires Nonempty(s, t) && Nonempty(Apply(cfg, s, e), t)
    ensures Apply(cfg, s, e).tenants[t].deficit
            + (if e.Dispatch? && e.request.tenant == t then e.request.work else 0)
            == s.tenants[t].deficit + (if e == Fund(t) then cfg.tenants[t].quantum else 0)
  {
    hide QueueLoad, TotalLoad, TenantLoad, FitsGlobal, FitsTenant, GlobalFull, Alive, Without, AdmitRefusal, BoundedAdd,
      Sound, Limits, Identity;
    match e {
      case Fund(u) =>
        FundingIsExact(cfg, s, u);
      case Admit(sub) =>
        if AdmitRefusal(cfg, s, sub).None? {
          EnqueueCredit(cfg, s, sub);
        }
      case _ =>
    }
  }

  lemma EnqueueCredit(cfg: ValidatedConfig, s: State, sub: Submission)
    requires AdmitRefusal(cfg, s, sub).None?
    ensures var after := Enqueue(cfg, s, sub);
      && |after.tenants| == |s.tenants| && after.cursor == s.cursor
      && forall t :: 0 <= t < |s.tenants| ==>
           after.tenants[t].deficit == s.tenants[t].deficit && after.tenants[t].visitOpen == s.tenants[t].visitOpen
  {
  }

  /**
   * Over a backlogged period the credit granted is the work dispatched plus the
   * change of the deficit: nothing is lost at the cap and nothing is forfeited.
   */
  lemma {:induction false} CreditConserved(cfg: ValidatedConfig, s: State, es: seq<Event>, t: nat)
    requires Sound(cfg) && Inv(cfg, s) && Legal(cfg, s, es) && Backlogged(cfg, s, es, t)
    ensures Nonempty(s, t) && t < |cfg.tenants|
    ensures Fundings(es, t) * cfg.tenants[t].quantum + s.tenants[t].deficit
            == Served(es, t) + Run(cfg, s, es).tenants[t].deficit
    decreases |es|
  {
    hide Sound, Inv, Enabled, Apply;
    if es == [] {
      RunInv(cfg, s, es);
      InvSized(cfg, s);
    } else {
      var k := |es| - 1;
      var mid := Run(cfg, s, es[..k]);
      CreditConserved(cfg, s, es[..k], t);
      RunInv(cfg, s, es[..k]);
      CreditStep(cfg, mid, es[k], t);
      var f := Fundings(es[..k], t);
      assert (f + 1) * cfg.tenants[t].quantum == f * cfg.tenants[t].quantum + cfg.tenants[t].quantum;
    }
  }

  lemma InvSized(cfg: ValidatedConfig, s: State)
    requires Inv(cfg, s)
    ensures |s.tenants| == |cfg.tenants|
  {
  }

  // ---------------------------------------------------------------------
  // Alternation of fundings
  // ---------------------------------------------------------------------

  /** Steps the cursor still has to take from `from` to reach `to` on a ring of `n`. */
  function Distance(from: nat, to: nat, n: nat): (r: nat)
    requires from < n && to < n
  {
    if from <= to then to - from else to - from + n
  }

  /** A visit is open only where the cursor is. */
  ghost predicate Unhindered(s: State, t: nat)
    requires t < |s.tenants|
  {
    s.tenants[t].visitOpen ==> s.cursor == t
  }

  /**
   * After `last` was funded the cursor is on its way to `next`: it has not passed
   * it, and next's visit has not begun.
   */
  ghost predicate Heading(s: State, last: nat, next: nat)
    requires last < |s.tenants| && next < |s.tenants| && s.cursor < |s.tenants|
  {
    && Distance(last, s.cursor, |s.tenants|) <= Distance(last, next, |s.tenants|)
    && (s.cursor == last ==> s.tenants[last].visitOpen)
    && !s.tenants[next].visitOpen
  }

  /** What one event does to the cursor and to two backlogged tenants' visits. */
  ghost predicate RingStep(s: State, e: Event, after: State, t: nat)
    requires t < |s.tenants| == |after.tenants| && s.cursor < |s.tenants|
  {
    && (e == Fund(t) ==> s.cursor == t && after.cursor == t && after.tenants[t].visitOpen && !s.tenants[t].visitOpen)
    && (e != Fund(t) && e != Close(t) ==> after.tenants[t].visitOpen == s.tenants[t].visitOpen)
    && (e == Close(t) ==> s.cursor == t && s.tenants[t].visitOpen && !after.tenants[t].visitOpen)
    && (after.cursor == s.cursor || after.cursor == (if s.cursor + 1 == |s.tenants| then 0 else s.cursor + 1))
    && (s.cursor == t && after.cursor != t ==> e == Close(t) || e == Block(t))
    && (e == Block(t) || e == Close(t) ==> after.cursor == (if s.cursor + 1 == |s.tenants| then 0 else s.cursor + 1))
  }

  lemma RingStepHolds(cfg: ValidatedConfig, s: State, e: Event, t: nat)
    requires Sound(cfg) && Inv(cfg, s) && Enabled(cfg, s, e)
    requires Nonempty(s, t) && Nonempty(Apply(cfg, s, e), t)
    ensures |Apply(cfg, s, e).tenants| == |s.tenants| && s.cursor < |s.tenants|
    ensures RingStep(s, e, Apply(cfg, s, e), t)
  {
    hide QueueLoad, TotalLoad, TenantLoad, FitsGlobal, FitsTenant, GlobalFull, Alive, Without, AdmitRefusal, BoundedAdd,
      Sound, Limits, Identity, CreditOk, QueueOk, RequestOk, Enqueue, Known;
    match e {
      case Admit(sub) =>
        if AdmitRefusal(cfg, s, sub).None? {
          EnqueueCredit(cfg, s, sub);
        }
      case Rewind =>
        NothingQueued(s.tenants);
      case _ =>
    }
  }

  /** One event keeps `Unhindered` unless it blocks the tenant. */
  lemma UnhinderedStep(s: State, e: Event, after: State, t: nat)
    requires t < |s.tenants| == |after.tenants| && s.cursor < |s.tenants| && RingStep(s, e, after, t)
    requires Unhindered(s, t) && e != Block(t)
    ensures Unhindered(after, t)
  {
  }

  lemma HeadingStep(s: State, e: Event, after: State, last: nat, next: nat)
    requires last < |s.tenants| == |after.tenants| && next < |s.tenants| && s.cursor < |s.tenants|
    requires last != next && after.cursor < |s.tenants|
    requires RingStep(s, e, after, last) && RingStep(s, e, after, next)
    requires Heading(s, last, next) && e != Block(last) && e != Block(next) && e != Fund(next)
    ensures e != Fund(last)
    ensures Heading(after, last, next)
  {
  }

  datatype Turn = NoTurn | Turn(first: nat, last: nat)

  /** The first and the latest of the two tenants to be funded. */
  function TurnOf(es: seq<Event>, a: nat, b: nat): (r: Turn) {
    if es == [] then NoTurn else
      var before := TurnOf(es[..|es| - 1], a, b);
      var e := es[|es| - 1];
      if e.Fund? && (e.tenant == a || e.tenant == b) then
        Turn(if before.NoTurn? then e.tenant else before.first, e.tenant)
      else before
  }

  /** Fundings strictly alternate, so the counts follow from the first and the last. */
  ghost predicate Alternating(es: seq<Event>, a: nat, b: nat, end: State) {
    && a < |end.tenants| && b < |end.tenants| && end.cursor < |end.tenants|
    && Unhindered(end, a) && Unhindered(end, b)
    && match TurnOf(es, a, b)
       case NoTurn => Fundings(es, a) == 0 && Fundings(es, b) == 0
       case Turn(first, last) =>
         && (first == a || first == b)
         && (last == a || last == b)
         && Heading(end, last, if last == a then b else a)
         && Fundings(es, a) - Fundings(es, b) ==
              (if first == last then (if first == a then 1 else -1) else 0)
  }

  ghost predicate NeverBlocked(es: seq<Event>, t: nat) {
    forall i :: 0 <= i < |es| ==> es[i] != Block(t)
  }

  lemma CountsSnoc(es: seq<Event>, e: Event, a: nat, b: nat)
    ensures Fundings(es + [e], a) == Fundings(es, a) + (if e == Fund(a) then 1 else 0)
    ensures Fundings(es + [e], b) == Fundings(es, b) + (if e == Fund(b) then 1 else 0)
    ensures TurnOf(es + [e], a, b) ==
            if e == Fund(a) || e == Fund(b)
            then Turn(if TurnOf(es, a, b).NoTurn? then e.tenant else TurnOf(es, a, b).first, e.tenant)
            else TurnOf(es, a, b)
  {
    assert (es + [e])[..|es|] == es;
  }

  lemma CursorInRange(cfg: ValidatedConfig, s: State, e: Event)
    requires Sound(cfg) && Inv(cfg, s) && Enabled(cfg, s, e)
    ensures Apply(cfg, s, e).cursor < |Apply(cfg, s, e).tenants|
  {
    hide Inv, Enabled, Apply, Sound;
    InvStep(cfg, s, e);
    InvCursor(cfg, Apply(cfg, s, e));
  }

  lemma InvCursor(cfg: ValidatedConfig, s: State)
    requires Inv(cfg, s)
    ensures s.cursor < |s.tenants|
  {
    hide Limits, Identity;
  }

  /** Funding one tenant sends the cursor towards the other. */
  lemma HeadingStarts(s: State, e: Event, after: State, last: nat, next: nat)
    requires last < |s.tenants| == |after.tenants| && next < |s.tenants| && s.cursor < |s.tenants| && last != next
    requires RingStep(s, e, after, last) && RingStep(s, e, after, next)
    requires Unhindered(s, next) && e == Fund(last)
    ensures after.cursor < |s.tenants| && Heading(after, last, next)
  {
  }

  /** The tenant just funded was not the one funded before. */
  lemma FundedIsNext(s: State, e: Event, after: State, last: nat, next: nat)
    requires last < |s.tenants| == |after.tenants| && next < |s.tenants| && s.cursor < |s.tenants| && last != next
    requires RingStep(s, e, after, last) && e == Fund(last)
    ensures !Heading(s, last, next)
  {
  }

  lemma AlternationStep(cfg: ValidatedConfig, s: State, es: seq<Event>, e: Event, a: nat, b: nat)
    requires Sound(cfg) && Inv(cfg, s) && Enabled(cfg, s, e) && a != b
    requires Nonempty(s, a) && Nonempty(s, b)
    requires Nonempty(Apply(cfg, s, e), a) && Nonempty(Apply(cfg, s, e), b)
    requires e != Block(a) && e != Block(b)
    requires Alternating(es, a, b, s)
    ensures Alternating(es + [e], a, b, Apply(cfg, s, e))
  {
    hide Sound, Inv, Enabled, Apply, Fundings, TurnOf, RingStep, Unhindered, Heading, Distance;
    var after := Apply(cfg, s, e);
    RingStepHolds(cfg, s, e, a);
    RingStepHolds(cfg, s, e, b);
    CursorInRange(cfg, s, e);
    CountsSnoc(es, e, a, b);
    UnhinderedStep(s, e, after, a);
    UnhinderedStep(s, e, after, b);
    if e == Fund(a) {
      HeadingStarts(s, e, after, a, b);
      FundedIsNext(s, e, after, a, b);
    } else if e == Fund(b) {
      HeadingStarts(s, e, after, b, a);
      FundedIsNext(s, e, after, b, a);
    } else if TurnOf(es, a, b).Turn? {
      var last := TurnOf(es, a, b).last;
      HeadingStep(s, e, after, last, if last == a then b else a);
    }
  }

  lemma {:induction false} FundingsAlternate(cfg: ValidatedConfig, s: State, es: seq<Event>, a: nat, b: nat)
    requires Sound(cfg) && Inv(cfg, s) && Legal(cfg, s, es) && a != b
    requires Backlogged(cfg, s, es, a) && Backlogged(cfg, s, es, b)
    requires NeverBlocked(es, a) && NeverBlocked(es, b)
    requires a < |s.tenants| && b < |s.tenants| && Unhindered(s, a) && Unhindered(s, b)
    ensures Alternating(es, a, b, Run(cfg, s, es))
    decreases |es|
  {
    hide Sound, Inv, Enabled, Apply, Alternating;
    if es == [] {
      AlternatingAtStart(cfg, s, a, b);
    } else {
      var k := |es| - 1;
      FundingsAlternate(cfg, s, es[..k], a, b);
      RunInv(cfg, s, es[..k]);
      assert es[k] != Block(a) && es[k] != Block(b);
      AlternationStep(cfg, Run(cfg, s, es[..k]), es[..k], es[k], a, b);
      assert es[..k] + [es[k]] == es;
    }
  }

  lemma AlternatingAtStart(cfg: ValidatedConfig, s: State, a: nat, b: nat)
    requires Inv(cfg, s) && a < |s.tenants| && b < |s.tenants| && Unhindered(s, a) && Unhindered(s, b)
    ensures Alternating([], a, b, s)
  {
  }

  // ---------------------------------------------------------------------
  // The service bound
  // ---------------------------------------------------------------------

  /** Two tenants at no advantage take turns: their fundings differ by at most one. */
  lemma FundingsDifferByAtMostOne(cfg: ValidatedConfig, s: State, es: seq<Event>, a: nat, b: nat)
    requires Sound(cfg) && Inv(cfg, s) && Legal(cfg, s, es) && a != b
    requires Backlogged(cfg, s, es, a) && Backlogged(cfg, s, es, b)
    requires NeverBlocked(es, a) && NeverBlocked(es, b)
    requires a < |s.tenants| && b < |s.tenants| && Unhindered(s, a) && Unhindered(s, b)
    ensures -1 <= Fundings(es, a) - Fundings(es, b) <= 1
  {
    hide Sound, Inv, Backlogged, Legal, Run;
    FundingsAlternate(cfg, s, es, a, b);
  }

  /** Bounds on the ends of two conservation laws bound the cross-weighted difference. */
  lemma CrossBound(fa: int, fb: int, sa: int, sb: int, da: int, db: int, qa: nat, qb: nat, m: nat)
    requires -1 <= fa - fb <= 1
    requires fa * qa == sa + da && fb * qb == sb + db
    requires -(m + qa) <= da <= m + qa && -(m + qb) <= db <= m + qb
    ensures -(3 * (qa * qb) + m * (qa + qb)) <= sa * qb - sb * qa <= 3 * (qa * qb) + m * (qa + qb)
  {
    calc {
      sa * qb - sb * qa;
      (fa * qa - da) * qb - (fb * qb - db) * qa;
      { assert (fa * qa - da) * qb == fa * qa * qb - da * qb; assert (fb * qb - db) * qa == fb * qb * qa - db * qa; }
      fa * qa * qb - fb * qb * qa - da * qb + db * qa;
      { Reassociate(fa, fb, qa, qb); }
      (fa - fb) * (qa * qb) - da * qb + db * qa;
    }
    UnitScale(fa - fb, qa * qb);
    MulMono(da, m + qa, qb);
    MulMono(-(m + qa), da, qb);
    MulMono(db, m + qb, qa);
    MulMono(-(m + qb), db, qa);
    Distribute(m, qa, qb);
  }

  lemma Reassociate(fa: int, fb: int, qa: nat, qb: nat)
    ensures fa * qa * qb - fb * qb * qa == (fa - fb) * (qa * qb)
  {
    assert fa * qa * qb == fa * (qa * qb);
    assert fb * qb * qa == fb * (qa * qb);
  }

  lemma UnitScale(k: int, x: int)
    requires -1 <= k <= 1 && 0 <= x
    ensures -x <= k * x <= x
  {
  }

  lemma Distribute(m: nat, qa: nat, qb: nat)
    ensures (m + qa) * qb == m * qb + qa * qb
    ensures (-(m + qa)) * qb == -(m * qb) - qa * qb
    ensures (m + qb) * qa == m * qa + qa * qb
    ensures (-(m + qb)) * qa == -(m * qa) - qa * qb
    ensures m * (qa + qb) == m * qa + m * qb
  {
  }

  lemma CreditRange(cfg: ValidatedConfig, s: State, t: nat)
    requires Inv(cfg, s) && t < |s.tenants|
    ensures t < |cfg.tenants| && 0 <= s.tenants[t].deficit <= cfg.maxRequestUnits - 1 + cfg.tenants[t].quantum
  {
    hide Limits, Identity;
  }

  /**
   * Over any run in which both tenants stay backlogged and neither is stopped by
   * its own in-flight limit, the work they are served, each divided by its
   * quantum, differs by a constant that does not grow with the run.
   */
  lemma ServiceIsProportional(cfg: ValidatedConfig, s: State, es: seq<Event>, a: nat, b: nat)
    requires Sound(cfg) && Inv(cfg, s) && Legal(cfg, s, es) && a != b
    requires Backlogged(cfg, s, es, a) && Backlogged(cfg, s, es, b)
    requires NeverBlocked(es, a) && NeverBlocked(es, b)
    requires a < |s.tenants| && b < |s.tenants| && Unhindered(s, a) && Unhindered(s, b)
    ensures a < |cfg.tenants| && b < |cfg.tenants|
    ensures
      var qa, qb := cfg.tenants[a].quantum, cfg.tenants[b].quantum;
      var slack := 3 * (qa * qb) + (cfg.maxRequestUnits - 1) * (qa + qb);
      -slack <= Served(es, a) * qb - Served(es, b) * qa <= slack
  {
    hide Sound, Inv, Backlogged, Legal, Run, Unhindered, NeverBlocked, Served, Fundings;
    FundingsDifferByAtMostOne(cfg, s, es, a, b);
    CreditConserved(cfg, s, es, a);
    CreditConserved(cfg, s, es, b);
    var end := Run(cfg, s, es);
    RunInv(cfg, s, es);
    InvSized(cfg, s);
    InvSized(cfg, end);
    CreditRange(cfg, s, a);
    CreditRange(cfg, s, b);
    CreditRange(cfg, end, a);
    CreditRange(cfg, end, b);
    PositiveUnits(cfg);
    CrossBound(Fundings(es, a), Fundings(es, b), Served(es, a), Served(es, b),
               end.tenants[a].deficit - s.tenants[a].deficit, end.tenants[b].deficit - s.tenants[b].deficit,
               cfg.tenants[a].quantum, cfg.tenants[b].quantum, cfg.maxRequestUnits - 1);
  }

  lemma PositiveUnits(cfg: ValidatedConfig)
    requires Sound(cfg)
    ensures cfg.maxRequestUnits > 0
  {
  }

  /** A tenant that becomes backlogged starts unhindered. */
  lemma FreshBacklogUnhindered(cfg: ValidatedConfig, s: State, sub: Submission)
    requires Sound(cfg) && Inv(cfg, s) && Enabled(cfg, s, Admit(sub)) && AdmitRefusal(cfg, s, sub).None?
    requires s.tenants[cfg.tenantByID[sub.tenantID]].queue == []
    ensures var t := cfg.tenantByID[sub.tenantID];
      var after := Apply(cfg, s, Admit(sub));
      t < |after.tenants| && Nonempty(after, t) && Unhindered(after, t)
  {
    hide Limits, Identity, QueueLoad, TotalLoad, QueueLimitFailure;
  }

  lemma {:induction false} BackloggedSplit(cfg: ValidatedConfig, s: State, xs: seq<Event>, ys: seq<Event>, t: nat)
    requires Legal(cfg, s, xs + ys) && Backlogged(cfg, s, xs + ys, t)
    ensures Legal(cfg, s, xs) && Legal(cfg, Run(cfg, s, xs), ys)
    ensures Backlogged(cfg, s, xs, t) && Backlogged(cfg, Run(cfg, s, xs), ys, t)
    decreases |ys|
  {
    hide Enabled, Apply, Nonempty;
    RunSplit(cfg, s, xs, ys);
    if ys == [] {
      assert xs + ys == xs;
    } else {
      var k := |ys| - 1;
      assert (xs + ys)[..|xs + ys| - 1] == xs + ys[..k];
      BackloggedSplit(cfg, s, xs, ys[..k], t);
    }
  }

  /**
   * The same bound over every interval `ys` of a backlogged period, however long
   * the part `xs` of the period before it was.
   */
  lemma ServiceIsProportionalOverIntervals(cfg: ValidatedConfig, s: State, xs: seq<Event>, ys: seq<Event>, a: nat,
                                           b: nat)
    requires Sound(cfg) && Inv(cfg, s) && Legal(cfg, s, xs + ys) && a != b
    requires Backlogged(cfg, s, xs + ys, a) && Backlogged(cfg, s, xs + ys, b)
    requires NeverBlocked(xs + ys, a) && NeverBlocked(xs + ys, b)
    requires a < |s.tenants| && b < |s.tenants| && Unhindered(s, a) && Unhindered(s, b)
    ensures a < |cfg.tenants| && b < |cfg.tenants|
    ensures
      var qa, qb := cfg.tenants[a].quantum, cfg.tenants[b].quantum;
      var slack := 3 * (qa * qb) + (cfg.maxRequestUnits - 1) * (qa + qb);
      -slack <= Served(ys, a) * qb - Served(ys, b) * qa <= slack
  {
    hide Sound, Inv, Backlogged, Legal, Run, Served, Unhindered;
    BackloggedSplit(cfg, s, xs, ys, a);
    BackloggedSplit(cfg, s, xs, ys, b);
    assert forall i :: 0 <= i < |xs| ==> xs[i] == (xs + ys)[i];
    assert forall i :: 0 <= i < |ys| ==> ys[i] == (xs + ys)[|xs| + i];
    FundingsAlternate(cfg, s, xs, a, b);
    RunInv(cfg, s, xs);
    ServiceIsProportional(cfg, Run(cfg, s, xs), ys, a, b);
  }
}
