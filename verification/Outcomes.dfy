/** Outcomes over whole runs: every result is final, and drain is final. */
module Outcomes {
  import opened Prelude
  import opened AdmissionConfig
  import opened Scheduling
  import opened SchedulingInvariant
  import opened Fairness
  import opened FundingCost

  /** The entry whose result channel the event sends on, if any. */
  function Resolves(cfg: ValidatedConfig, s: State, e: Event): (r: Option<nat>) {
    match e
    case Admit(sub) => if AdmitRefusal(cfg, s, sub).Some? then Some(sub.id) else None
    case Drop(r, _) => Some(r.id)
    case Dispatch(r) => Some(r.id)
    case _ => None
  }

  /** How often entry `id` is resolved in a run. */
  ghost function Resolutions(cfg: ValidatedConfig, s: State, es: seq<Event>, id: nat): (r: nat)
    requires Legal(cfg, s, es)
    decreases |es|
  {
    if es == [] then 0 else
      Resolutions(cfg, s, es[..|es| - 1], id)
      + (if Resolves(cfg, Run(cfg, s, es[..|es| - 1]), es[|es| - 1]) == Some(id) then 1 else 0)
  }

  function Releases(es: seq<Event>, id: nat): (r: nat) {
    if es == [] then 0 else
      var e := es[|es| - 1];
      Releases(es[..|es| - 1], id) + (if e.Release? && e.finished.id == id then 1 else 0)
  }

  /** The result channel is empty before it is written, and nothing else is touched. */
  lemma ResolveStep(cfg: ValidatedConfig, s: State, e: Event)
    requires Inv(cfg, s) && Enabled(cfg, s, e)
    ensures var id := Resolves(cfg, s, e);
      && (id.Some? ==> id.value !in s.results && id.value in Apply(cfg, s, e).results)
      && (forall i :: i in s.results ==> i in Apply(cfg, s, e).results && Apply(cfg, s, e).results[i] == s.results[i])
      && (forall i :: i in Apply(cfg, s, e).results && i !in s.results ==> id == Some(i))
  {
    hide QueueLoad, TotalLoad, TenantLoad, FitsGlobal, FitsTenant, GlobalFull, Alive, Without, AdmitRefusal, BoundedAdd,
      Shape, Limits, UniqueQueued, UniqueIds, Permits, Queued;
    match e {
      case Admit(sub) =>
        if AdmitRefusal(cfg, s, sub).None? {
          EnqueueSized(cfg, s, sub);
        }
      case Dispatch(r) =>
        assert Queued(s, r) by { HeadQueued(cfg, s, r); }
      case _ =>
    }
  }

  lemma HeadQueued(cfg: ValidatedConfig, s: State, r: Request)
    requires Enabled(cfg, s, Dispatch(r))
    ensures Queued(s, r)
  {
  }

  /**
   * Every entry handed to the owner is resolved at most once; it has a result
   * exactly when it was resolved, and a result never changes.
   */
  lemma {:induction false} ResolvedExactlyOnce(cfg: ValidatedConfig, es: seq<Event>, id: nat)
    requires Sound(cfg) && Legal(cfg, Initial(cfg), es)
    ensures Resolutions(cfg, Initial(cfg), es, id) == if id in Run(cfg, Initial(cfg), es).results then 1 else 0
    decreases |es|
  {
    hide Sound, Inv, Enabled, Apply, Initial, Resolves;
    InitialInv(cfg);
    if es == [] {
      InitialSilent(cfg);
    } else {
      var k := |es| - 1;
      ResolvedExactlyOnce(cfg, es[..k], id);
      RunInv(cfg, Initial(cfg), es[..k]);
      ResolveStep(cfg, Run(cfg, Initial(cfg), es[..k]), es[k]);
    }
  }

  lemma InitialSilent(cfg: ValidatedConfig)
    ensures Initial(cfg).results == map[] && Initial(cfg).released == map[]
  {
  }

  lemma ReleaseStep(cfg: ValidatedConfig, s: State, e: Event)
    requires Inv(cfg, s) && Enabled(cfg, s, e)
    ensures var after := Apply(cfg, s, e);
      && (e.Release? ==> e.finished.id !in s.released && after.released.Keys == s.released.Keys + {e.finished.id})
      && (!e.Release? ==> after.released == s.released)
      && (forall i :: i in s.causes ==> i in after.causes && after.causes[i] == s.causes[i])
  {
    hide QueueLoad, TotalLoad, TenantLoad, FitsGlobal, FitsTenant, GlobalFull, Alive, Without, AdmitRefusal, BoundedAdd,
      Shape, Limits, UniqueQueued, UniqueIds, Unresolved, TerminalOutcome, DropDecision, Queued, InflightFits;
    match e {
      case Admit(sub) =>
        if AdmitRefusal(cfg, s, sub).None? {
          EnqueueSized(cfg, s, sub);
        }
      case _ =>
    }
  }

  /** Accounting is released once for each dispatched permit that finished, and for no other entry. */
  lemma {:induction false} ReleasedExactlyOnce(cfg: ValidatedConfig, es: seq<Event>, id: nat)
    requires Sound(cfg) && Legal(cfg, Initial(cfg), es)
    ensures var end := Run(cfg, Initial(cfg), es);
      && Releases(es, id) == (if id in end.released then 1 else 0)
      && (Releases(es, id) == 1 ==> id in end.results && end.results[id] == Dispatched && !Flying(end, id))
    decreases |es|
  {
    hide Sound, Enabled, Apply, Initial, Shape, Limits;
    InitialInv(cfg);
    RunInv(cfg, Initial(cfg), es);
    if es == [] {
      InitialSilent(cfg);
    } else {
      var k := |es| - 1;
      ReleasedExactlyOnce(cfg, es[..k], id);
      RunInv(cfg, Initial(cfg), es[..k]);
      ReleaseStep(cfg, Run(cfg, Initial(cfg), es[..k]), es[k]);
    }
  }

  /** A recorded cancel cause is never overwritten. */
  lemma {:induction false} CauseIsFinal(cfg: ValidatedConfig, s: State, es: seq<Event>, id: nat)
    requires Sound(cfg) && Inv(cfg, s) && Legal(cfg, s, es) && id in s.causes
    ensures var end := Run(cfg, s, es); id in end.causes && end.causes[id] == s.causes[id]
    decreases |es|
  {
    hide Sound, Inv, Enabled, Apply;
    if es != [] {
      var k := |es| - 1;
      CauseIsFinal(cfg, s, es[..k], id);
      RunInv(cfg, s, es[..k]);
      ReleaseStep(cfg, Run(cfg, s, es[..k]), es[k]);
    }
  }

  /** Releasing queued or in-flight accounting can never underflow a counter. */
  lemma NoUnderflow(cfg: ValidatedConfig, s: State, r: Request)
    requires Inv(cfg, s)
    ensures Queued(s, r) ==>
      var own := QueueLoad(s.tenants[r.tenant].queue);
      var all := TotalLoad(s.tenants);
      own.count > 0 && own.bytes >= r.bytes && own.work >= r.work
      && all.count > 0 && all.bytes >= r.bytes && all.work >= r.work
    ensures r in s.inflight ==>
      var own := TenantLoad(s.inflight, r.tenant);
      var all := QueueLoad(s.inflight);
      own.count > 0 && own.work >= r.work && all.count > 0 && all.work >= r.work
  {
    hide QueueLoad, TotalLoad, TenantLoad, Without, Inv, Settle;
    if Queued(s, r) {
      LeaveLoads(s, r);
    }
    if r in s.inflight {
      QueueLoadWithout(s.inflight, r);
      TenantLoadWithout(s.inflight, r, r.tenant);
    }
  }

  // ---------------------------------------------------------------------
  // Terminal outcomes
  // ---------------------------------------------------------------------

  /** What a finished permit is called: by its recorded cause, or by its serving when there is none. */
  ghost predicate NamedOutcome(causes: map<nat, Cause>, id: nat, serving: Serving, t: Terminal) {
    && (id in causes && causes[id] == ByShutdown ==> t == TerminalShutdown)
    && (id in causes && causes[id] == ByClient ==> t == TerminalCanceledInflight)
    && (id !in causes && serving == Completed ==> t == TerminalCompleted)
    && (id !in causes && serving == UpstreamFailed ==> t == TerminalUpstreamFailed)
    && (id !in causes && serving == DownstreamFailed ==> t == TerminalDownstreamFailed)
    && (id !in causes && serving == Canceled ==> t == TerminalCanceledInflight)
    && (id !in causes && serving == InternalFailure ==> t == TerminalInternalFailure)
  }

  // ---------------------------------------------------------------------
  // Drain
  // ---------------------------------------------------------------------

  ghost predicate IsDrained(s: State) {
    !s.accepting && TotalLoad(s.tenants).count == 0 && s.inflight == []
  }

  lemma ClosedStep(cfg: ValidatedConfig, s: State, e: Event)
    requires Inv(cfg, s) && Enabled(cfg, s, e) && !s.accepting
    ensures !Apply(cfg, s, e).accepting && !e.Dispatch? && !e.Fund?
    ensures e.Admit? ==> Apply(cfg, s, e).results == s.results[e.sub.id := Draining]
    ensures forall r :: Queued(Apply(cfg, s, e), r) ==> Queued(s, r)
    ensures forall r :: r in Apply(cfg, s, e).inflight ==> r in s.inflight
  {
    hide QueueLoad, TotalLoad, TenantLoad, FitsGlobal, FitsTenant, GlobalFull, Alive, Without, BoundedAdd,
      Queued, Shape, Limits, UniqueIds, Unresolved, Permits;
    StepQueued(cfg, s, e);
    StepInflight(cfg, s, e);
  }

  /** After drain begins nothing is queued, funded or dispatched any more. */
  lemma {:induction false} DrainAdmitsNothing(cfg: ValidatedConfig, s: State, es: seq<Event>)
    requires Sound(cfg) && Inv(cfg, s) && Legal(cfg, s, es) && !s.accepting
    ensures var end := Run(cfg, s, es);
      && !end.accepting && Dispatches(es) == 0 && AllFundings(es) == 0
      && (forall r :: Queued(end, r) ==> Queued(s, r))
      && (forall r :: r in end.inflight ==> r in s.inflight)
    decreases |es|
  {
    hide Sound, Inv, Enabled, Apply, Queued;
    if es != [] {
      var k := |es| - 1;
      DrainAdmitsNothing(cfg, s, es[..k]);
      RunInv(cfg, s, es[..k]);
      ClosedStep(cfg, Run(cfg, s, es[..k]), es[k]);
    }
  }

  lemma EmptyByMembers(cfg: ValidatedConfig, s: State)
    requires Inv(cfg, s)
    ensures TotalLoad(s.tenants).count == 0 <==> forall r :: !Queued(s, r)
  {
    hide TotalLoad, Limits, Identity;
    NothingQueued(s.tenants);
    forall t | 0 <= t < |s.tenants| && s.tenants[t].queue != [] ensures Queued(s, s.tenants[t].queue[0]) {
      assert QueueOk(cfg, t, s.tenants[t].queue, s.sequence);
    }
  }

  /** Once both counts have reached zero they stay zero, and drain is announced at most once. */
  lemma DrainIsStable(cfg: ValidatedConfig, s: State, es: seq<Event>)
    requires Sound(cfg) && Inv(cfg, s) && Legal(cfg, s, es) && IsDrained(s)
    ensures IsDrained(Run(cfg, s, es))
  {
    hide Sound, Inv, Legal, Run, TotalLoad, Queued;
    var end := Run(cfg, s, es);
    assert end.inflight == [] || end.inflight[0] in end.inflight;
    DrainAdmitsNothing(cfg, s, es);
    RunInv(cfg, s, es);
    EmptyByMembers(cfg, s);
    EmptyByMembers(cfg, end);
  }

  function Announcements(es: seq<Event>): (r: nat) {
    if es == [] then 0 else Announcements(es[..|es| - 1]) + (if es[|es| - 1].CloseDrained? then 1 else 0)
  }

  lemma AnnounceStep(cfg: ValidatedConfig, s: State, e: Event)
    requires Enabled(cfg, s, e)
    ensures Apply(cfg, s, e).drained == (s.drained || e.CloseDrained?)
    ensures e.CloseDrained? ==> !s.drained && IsDrained(s)
  {
    hide QueueLoad, TotalLoad, TenantLoad, FitsGlobal, FitsTenant, GlobalFull, Alive, Without, BoundedAdd, AdmitRefusal;
    match e {
      case Admit(sub) =>
        if AdmitRefusal(cfg, s, sub).None? {
          EnqueueSized(cfg, s, sub);
        }
      case _ =>
    }
  }

  /** The drained channel is closed at most once, and only when everything is finished for good. */
  lemma {:induction false} DrainAnnouncedOnce(cfg: ValidatedConfig, es: seq<Event>)
    requires Sound(cfg) && Legal(cfg, Initial(cfg), es)
    ensures var end := Run(cfg, Initial(cfg), es);
      && Announcements(es) == (if end.drained then 1 else 0)
      && (end.drained ==> IsDrained(end))
    decreases |es|
  {
    hide Sound, Inv, Enabled, Apply, IsDrained;
    InitialInv(cfg);
    if es != [] {
      var k := |es| - 1;
      var mid := Run(cfg, Initial(cfg), es[..k]);
      DrainAnnouncedOnce(cfg, es[..k]);
      RunInv(cfg, Initial(cfg), es[..k]);
      AnnounceStep(cfg, mid, es[k]);
      if mid.drained || es[k].CloseDrained? {
        OneEvent(cfg, mid, es[k]);
        DrainIsStable(cfg, mid, [es[k]]);
      }
    }
  }

  lemma OneEvent(cfg: ValidatedConfig, s: State, e: Event)
    requires Enabled(cfg, s, e)
    ensures Legal(cfg, s, [e]) && Run(cfg, s, [e]) == Apply(cfg, s, e)
  {
    hide Enabled, Apply;
    RunSnoc(cfg, s, [], e);
    assert [] + [e] == [e];
  }
}
