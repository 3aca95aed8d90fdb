/**
 * The owner goroutine: each turn expires what is due, handles at most one mailbox
 * command, pumps and announces the end of drain. Between turns the owner is
 * settled, and the panic on a stop before drain is not reachable.
 */
module OwnerLoop {
  import opened Prelude
  import opened AdmissionConfig
  import opened Scheduling
  import opened SchedulingInvariant
  import opened Fairness
  import opened FundingCost
  import opened Barrier
  import opened Outcomes
  import opened Oracle
  import opened Ledger
  import opened Owner
  import Clients = Acquire

  datatype Command =
    | AdmitCommand(sub: Submission)
    | CancelCommand(id: nat)
    | FinishCommand(entry: nat, serving: Serving)
    | DrainCommand
    | ForceCancelCommand
    | StopCommand

  datatype Response =
    | NoResponse
    | CancelResponse(cancel: CancelResult)
    | FinishResponse(terminal: TerminalResult)
    | DrainResponse(shutdown: nat, active: uint64)
    | ForceCancelResponse(signaled: nat)
    | Stopping

  // ---------------------------------------------------------------------
  // What one part of the history adds
  // ---------------------------------------------------------------------

  /** The part of the history after `before` is a run of its own. */
  lemma Delta(cfg: ValidatedConfig, before: seq<Event>, after: seq<Event>)
    requires before <= after && Legal(cfg, Initial(cfg), after)
    ensures Legal(cfg, Initial(cfg), before)
    ensures Legal(cfg, Run(cfg, Initial(cfg), before), after[|before|..])
    ensures Run(cfg, Run(cfg, Initial(cfg), before), after[|before|..]) == Run(cfg, Initial(cfg), after)
  {
    hide Legal, Run, Initial;
    assert before + after[|before|..] == after;
    RunSplit(cfg, Initial(cfg), before, after[|before|..]);
  }

  lemma {:induction false} FundingsAdd(xs: seq<Event>, ys: seq<Event>)
    ensures AllFundings(xs + ys) == AllFundings(xs) + AllFundings(ys)
  {
    if ys == [] {
      assert xs + ys == xs;
    } else {
      assert (xs + ys)[..|xs + ys| - 1] == xs + ys[..|ys| - 1];
      FundingsAdd(xs, ys[..|ys| - 1]);
    }
  }

  lemma PumpedRun(before: seq<Event>, after: seq<Event>)
    requires OnlyPumped(before, after)
    ensures PumpRun(after[|before|..])
  {
  }

  /** A pump stays within the processor bound that validation enforces. */
  lemma PumpBudget(cfg: ValidatedConfig, before: seq<Event>, after: seq<Event>)
    requires Sound(cfg) && Legal(cfg, Initial(cfg), after) && OnlyPumped(before, after)
    ensures AllFundings(after) <= AllFundings(before) + 65536
  {
    hide Sound, Legal, Run, Initial, Inv, AllFundings, PumpRun;
    PumpedRun(before, after);
    Delta(cfg, before, after);
    InitialInv(cfg);
    RunInv(cfg, Initial(cfg), before);
    PumpWithinCpuBound(cfg, Run(cfg, Initial(cfg), before), after[|before|..]);
    FundingsAdd(before, after[|before|..]);
    assert before + after[|before|..] == after;
  }

  ghost predicate LeftBetween(before: seq<Event>, after: seq<Event>, r: Request) {
    exists i :: |before| <= i < |after| && Departs(after[i], r)
  }

  /** A head that was reserved when nothing was in flight has left when the pump returns. */
  lemma PumpServesReserved(cfg: ValidatedConfig, before: seq<Event>, after: seq<Event>, r: Request)
    requires Sound(cfg) && Legal(cfg, Initial(cfg), after) && OnlyPumped(before, after)
    requires Legal(cfg, Initial(cfg), before)
    requires var s := Run(cfg, Initial(cfg), before); Reserved(cfg, s, r) && s.inflight == []
    requires var end := Run(cfg, Initial(cfg), after); |end.tenants| == |cfg.tenants| && WorkConserving(cfg, end)
    ensures LeftBetween(before, after, r)
  {
    hide Sound, Legal, Run, Initial, Inv, PumpRun, Reserved, WorkConserving, Departs;
    PumpedRun(before, after);
    Delta(cfg, before, after);
    InitialInv(cfg);
    RunInv(cfg, Initial(cfg), before);
    var es := after[|before|..];
    ReservedHeadLeaves(cfg, Run(cfg, Initial(cfg), before), es, r);
    var i :| 0 <= i < |es| && Departs(es[i], r);
    assert after[|before| + i] == es[i];
  }

  /** With one free slot and nothing removed, the pump serves the oracle's next pick. */
  lemma PumpPicksLikeOracle(cfg: ValidatedConfig, before: seq<Event>, after: seq<Event>) returns (k: nat, r: Request)
    requires Sound(cfg) && Legal(cfg, Initial(cfg), after) && OnlyPumped(before, after)
    requires Legal(cfg, Initial(cfg), before)
    requires cfg.globalInflight.count == 1 && NoDrops(after[|before|..])
    requires var s := Run(cfg, Initial(cfg), before); s.inflight == [] && Remaining(s.tenants) > 0
    requires var end := Run(cfg, Initial(cfg), after); |end.tenants| == |cfg.tenants| && WorkConserving(cfg, end)
    ensures Proper(cfg, View(Run(cfg, Initial(cfg), before)))
    ensures Visits(cfg, View(Run(cfg, Initial(cfg), before)), k) == Outcome(View(Run(cfg, Initial(cfg), after)), [r])
  {
    hide Sound, Legal, Run, Initial, Inv, PumpRun, Reserved, WorkConserving, Visits, NoDrops, Remaining;
    PumpedRun(before, after);
    Delta(cfg, before, after);
    InitialInv(cfg);
    RunInv(cfg, Initial(cfg), before);
    k, r := PumpIsOraclePick(cfg, Run(cfg, Initial(cfg), before), after[|before|..]);
  }

  lemma {:induction false} PumpAddsNoEntry(cfg: ValidatedConfig, s: State, es: seq<Event>, id: nat)
    requires Sound(cfg) && Inv(cfg, s) && Legal(cfg, s, es) && PumpRun(es) && !Known(s, id)
    ensures !Known(Run(cfg, s, es), id)
    decreases |es|
  {
    hide Sound, Inv, Enabled, Apply, Known;
    if es != [] {
      var k := |es| - 1;
      PumpAddsNoEntry(cfg, s, es[..k], id);
      RunInv(cfg, s, es[..k]);
      assert PumpEvent(es[k]);
      UnknownStays(cfg, Run(cfg, s, es[..k]), es[k], id);
    }
  }

  lemma UnknownStays(cfg: ValidatedConfig, s: State, e: Event, id: nat)
    requires Inv(cfg, s) && Enabled(cfg, s, e) && !e.Admit? && !Known(s, id)
    ensures !Known(Apply(cfg, s, e), id)
  {
    hide Shape, Limits, Identity, Enabled, Apply, Queued;
    StepQueued(cfg, s, e);
    ResolveStep(cfg, s, e);
    ResolvesKnown(cfg, s, e);
  }

  lemma ResolvesKnown(cfg: ValidatedConfig, s: State, e: Event)
    requires Enabled(cfg, s, e) && !e.Admit?
    ensures Resolves(cfg, s, e).Some? ==> Known(s, Resolves(cfg, s, e).value)
  {
    hide QueueLoad, TotalLoad, TenantLoad, FitsGlobal, FitsTenant, GlobalFull, Alive, Queued;
    if e.Dispatch? {
      HeadQueued(cfg, s, e.request);
    }
  }

  lemma StillUnknown(cfg: ValidatedConfig, before: seq<Event>, after: seq<Event>, id: nat)
    requires Sound(cfg) && Legal(cfg, Initial(cfg), after) && OnlyPumped(before, after)
    requires Legal(cfg, Initial(cfg), before) && !Known(Run(cfg, Initial(cfg), before), id)
    ensures !Known(Run(cfg, Initial(cfg), after), id)
  {
    hide Sound, Legal, Run, Initial, Inv, PumpRun, Known;
    PumpedRun(before, after);
    Delta(cfg, before, after);
    InitialInv(cfg);
    RunInv(cfg, Initial(cfg), before);
    PumpAddsNoEntry(cfg, Run(cfg, Initial(cfg), before), after[|before|..], id);
  }

  // ---------------------------------------------------------------------
  // One turn
  // ---------------------------------------------------------------------

  /** What holds whenever the owner waits for its mailbox or its timer. */
  ghost predicate Settled(o: OwnerState)
    reads o, o.expiry
  {
    && o.Valid()
    && (!o.accepting ==> TotalLoad(o.Abs().tenants).count == 0)
    && (IsDrained(o.Abs()) ==> o.drainNotified)
    && |o.Abs().tenants| == |o.cfg.tenants| && WorkConserving(o.cfg, o.Abs())
  }

  ghost predicate Ready(o: OwnerState)
    reads o, o.expiry
  {
    o.Valid() && (!o.accepting ==> TotalLoad(o.Abs().tenants).count == 0)
  }

  /** What was added is only what the owner does of its own accord. */
  ghost predicate InternalAfter(before: seq<Event>, after: seq<Event>) {
    before <= after && OnlyInternal(after[|before|..])
  }

  lemma PumpedIsInternal(before: seq<Event>, after: seq<Event>)
    requires OnlyPumped(before, after)
    ensures InternalAfter(before, after)
  {
  }

  lemma InternalSnoc(before: seq<Event>, after: seq<Event>, e: Event)
    requires InternalAfter(before, after) && Internal(e)
    ensures InternalAfter(before, after + [e])
  {
    assert (after + [e])[|before|..] == after[|before|..] + [e];
  }

  /** The pump alone, with its cost and its service to a reserved head. */
  method BoundedPump(o: OwnerState)
    requires Ready(o)
    modifies o, o.expiry
    ensures Ready(o) && OnlyPumped(old(o.history), o.history) && old(o.history) <= o.history
    ensures o.drainNotified == old(o.drainNotified) && o.accepting == old(o.accepting)
    ensures |o.Abs().tenants| == |o.cfg.tenants| && WorkConserving(o.cfg, o.Abs())
    ensures AllFundings(o.history) <= AllFundings(old(o.history)) + 65536
    ensures forall r :: old(o.inflight) == [] && old(Reserved(o.cfg, o.Abs(), r)) ==>
      LeftBetween(old(o.history), o.history, r)
  {
    hide o.Valid, Sound, TotalLoad, WorkConserving, Reserved, Legal, Run, Initial, AllFundings, LeftBetween;
    ghost var before := o.history;
    ghost var s := o.Abs();
    Backing(o);
    o.Pump();
    Backing(o);
    ghost var after := o.history;
    PumpBudget(o.cfg, before, after);
    forall r | s.inflight == [] && Reserved(o.cfg, s, r) ensures LeftBetween(before, after, r) {
      PumpServesReserved(o.cfg, before, after, r);
    }
  }

  /** What validity says of the history alone. */
  lemma Backing(o: OwnerState)
    requires o.Valid()
    ensures Sound(o.cfg) && Legal(o.cfg, Initial(o.cfg), o.history)
    ensures Run(o.cfg, Initial(o.cfg), o.history) == o.Abs()
  {
    hide Sound, Legal, Run, Initial;
  }

  lemma LeftStays(before: seq<Event>, after: seq<Event>, e: Event, r: Request)
    requires LeftBetween(before, after, r)
    ensures LeftBetween(before, after + [e], r)
  {
    hide Departs;
    var i :| |before| <= i < |after| && Departs(after[i], r);
    assert (after + [e])[i] == after[i];
  }

  lemma NotificationIsQuiet(cfg: ValidatedConfig, s: State, t: State)
    requires t == s.(drained := t.drained)
    ensures IsDrained(t) == IsDrained(s)
    ensures |s.tenants| == |cfg.tenants| ==> WorkConserving(cfg, t) == WorkConserving(cfg, s)
  {
    hide TotalLoad, QueueLoad, TenantLoad;
    assert forall r :: Reserved(cfg, t, r) == Reserved(cfg, s, r);
    assert forall r :: FitsGlobal(cfg, t, r) == FitsGlobal(cfg, s, r);
    assert forall r: Request | r.tenant < |cfg.tenants| :: FitsTenant(cfg, t, r) == FitsTenant(cfg, s, r);
    assert forall k | 0 <= k < |s.tenants| :: HeadPlaced(t, k) == HeadPlaced(s, k);
  }

  /**
   * Pumps and then announces the end of drain. At most 65,536 fundings are executed,
   * and a head reserved while nothing is in flight does not survive the call.
   */
  method PumpAndNotify(o: OwnerState)
    requires Ready(o)
    modifies o, o.expiry
    ensures Settled(o) && InternalAfter(old(o.history), o.history) && (old(o.drainNotified) ==> o.drainNotified)
    ensures AllFundings(o.history) <= AllFundings(old(o.history)) + 65536
    ensures forall r :: old(o.inflight) == [] && old(Reserved(o.cfg, o.Abs(), r)) ==>
      LeftBetween(old(o.history), o.history, r)
  {
    hide o.Valid, Sound, TotalLoad, WorkConserving, Reserved, Legal, Run, Initial, AllFundings, LeftBetween, IsDrained;
    ghost var before := o.history;
    BoundedPump(o);
    ghost var pumped := o.history;
    PumpedIsInternal(before, pumped);
    ghost var s := o.Abs();
    o.NotifyDrained();
    NotificationIsQuiet(o.cfg, s, o.Abs());
    if o.history != pumped {
      InternalSnoc(before, pumped, CloseDrained);
      FundingsAdd(pumped, [CloseDrained]);
      OneClosing();
      forall r | LeftBetween(before, pumped, r) ensures LeftBetween(before, o.history, r) {
        LeftStays(before, pumped, CloseDrained, r);
      }
    }
  }

  lemma OneClosing()
    ensures AllFundings([CloseDrained]) == 0
  {
    assert [CloseDrained][..0] == [];
  }

  /** The first thing added to the history is a reading of the clock. */
  ghost predicate ReadFirst(before: seq<Event>, after: seq<Event>, reading: int) {
    |before| < |after| && after[|before|] == Tick(reading)
  }

  /** Nothing that was due at the reading is queued, and time has not gone back. */
  ghost predicate Timely(s: State, reading: int) {
    reading <= s.now && forall r :: Queued(s, r) ==> r.deadline > reading
  }

  lemma TimelyStep(cfg: ValidatedConfig, s: State, e: Event, reading: int)
    requires Inv(cfg, s) && Enabled(cfg, s, e) && Timely(s, reading)
    ensures Timely(Apply(cfg, s, e), reading)
  {
    hide QueueLoad, TotalLoad, TenantLoad, FitsGlobal, FitsTenant, GlobalFull, Alive, Without, BoundedAdd, Shape,
      Limits,
      Identity, Queued, QueueLimitFailure;
    StepQueued(cfg, s, e);
  }

  lemma {:induction false} StaysTimely(cfg: ValidatedConfig, s: State, es: seq<Event>, reading: int)
    requires Sound(cfg) && Inv(cfg, s) && Legal(cfg, s, es) && Timely(s, reading)
    ensures Timely(Run(cfg, s, es), reading)
    decreases |es|
  {
    hide Sound, Inv, Enabled, Apply, Timely;
    if es != [] {
      var k := |es| - 1;
      StaysTimely(cfg, s, es[..k], reading);
      RunInv(cfg, s, es[..k]);
      TimelyStep(cfg, Run(cfg, s, es[..k]), es[k], reading);
    }
  }

  lemma TimelyAfter(cfg: ValidatedConfig, before: seq<Event>, after: seq<Event>, reading: int)
    requires Sound(cfg) && before <= after && Legal(cfg, Initial(cfg), after) && Legal(cfg, Initial(cfg), before)
    requires Timely(Run(cfg, Initial(cfg), before), reading)
    ensures Timely(Run(cfg, Initial(cfg), after), reading)
  {
    hide Sound, Legal, Run, Initial, Inv, Timely;
    Delta(cfg, before, after);
    InitialInv(cfg);
    RunInv(cfg, Initial(cfg), before);
    StaysTimely(cfg, Run(cfg, Initial(cfg), before), after[|before|..], reading);
  }

  /** The clock is read and everything due at the reading is expired, before anything else. */
  method ExpireDue(o: OwnerState) returns (reading: int)
    requires Ready(o)
    modifies o, o.expiry
    ensures Ready(o) && OnlyPumped(old(o.history), o.history) && old(o.history) <= o.history && reading == o.now
    ensures o.drainNotified == old(o.drainNotified) && o.accepting == old(o.accepting) && o.inflight == old(o.inflight)
    ensures ReadFirst(old(o.history), o.history, reading) && Timely(o.Abs(), reading)
  {
    hide o.Valid, Sound, TotalLoad, Legal, Run, Initial, Queued, OnlyPumped, Dropped, Surviving, InDeadlineOrder;
    ghost var before := o.history;
    Backing(o);
    ghost var was := o.Abs();
    reading := o.Now();
    OnlyTicked(before, o.now);
    ghost var mid := o.history;
    ghost var rest := o.tenants;
    o.ExpireReady(reading);
    OwnerState.OnlyPumpedJoin(before, mid, o.history);
    assert before <= mid <= o.history by { Extends(before, mid); Extends(mid, o.history); }
    assert mid[|before|] == Tick(reading);
    if !o.accepting {
      Backing(o);
      DrainStaysEmpty(o, was, before);
    }
  }

  lemma Extends(before: seq<Event>, after: seq<Event>)
    requires OnlyPumped(before, after)
    ensures before <= after
  {
  }

  lemma OnlyTicked(before: seq<Event>, now: int)
    ensures OnlyPumped(before, before + [Tick(now)])
  {
  }

  /** After drain began, an empty owner stays empty. */
  lemma DrainStaysEmpty(o: OwnerState, was: State, before: seq<Event>)
    requires Sound(o.cfg) && Legal(o.cfg, Initial(o.cfg), o.history) && Run(o.cfg, Initial(o.cfg), o.history) == o.Abs()
    requires Legal(o.cfg, Initial(o.cfg), before) && Run(o.cfg, Initial(o.cfg), before) == was
    requires before <= o.history && !was.accepting && TotalLoad(was.tenants).count == 0
    ensures TotalLoad(o.Abs().tenants).count == 0
  {
    hide Sound, Legal, Run, Initial, Inv, TotalLoad, Queued;
    Delta(o.cfg, before, o.history);
    InitialInv(o.cfg);
    RunInv(o.cfg, Initial(o.cfg), before);
    RunInv(o.cfg, Initial(o.cfg), o.history);
    DrainAdmitsNothing(o.cfg, was, o.history[|before|..]);
    EmptyByMembers(o.cfg, was);
    EmptyByMembers(o.cfg, o.Abs());
  }

  /** Drain was announced, so everything is finished, and stays so. */
  lemma AnnouncedIsDrained(o: OwnerState)
    requires o.Valid() && o.drainNotified
    ensures IsDrained(o.Abs()) && o.global.queuedCount == 0 && o.global.inflightCount == 0
  {
    hide o.Valid, Sound, Legal, Run, Initial, TotalLoad;
    Backing(o);
    DrainAnnouncedOnce(o.cfg, o.history);
    o.InflightCounted();
  }

  // ---------------------------------------------------------------------
  // Commands
  // ---------------------------------------------------------------------

  /**
   * What a command may assume: a submission passed the client-side checks under a
   * new identifier, and a stop is sent only by a caller that saw the end of drain.
   */
  ghost predicate Acceptable(o: OwnerState, c: Command)
    reads o
  {
    match c
    case AdmitCommand(sub) => WellFormed(o.cfg, sub) && !Known(o.Abs(), sub.id)
    case StopCommand => o.drainNotified
    case _ => true
  }

  /** The mailbox message of a command. */
  function MessageOf(c: Command): (r: Clients.Message) {
    match c
    case AdmitCommand(sub) => Clients.AdmitMessage(sub)
    case CancelCommand(id) => Clients.CancelMessage(id, true)
    case FinishCommand(entry, serving) => Clients.FinishMessage(entry, serving)
    case DrainCommand => Clients.DrainMessage(0)
    case ForceCancelCommand => Clients.ForceCancelMessage
    case StopCommand => Clients.StopMessage
  }

  /** What a turn adds to the history: events of its own, the effect of its message, and events of its own. */
  datatype OwnerTurn = OwnerTurn(pre: seq<Event>, effect: Option<Event>, post: seq<Event>)

  function Added(t: OwnerTurn): (r: seq<Event>) { t.pre + Steps(t.effect) + t.post }

  /** The turn is one that clients may see: its effect is that of the message where it happens. */
  ghost predicate Serves(cfg: ValidatedConfig, before: seq<Event>, m: Clients.Message, t: OwnerTurn) {
    && OnlyInternal(t.pre) && OnlyInternal(t.post)
    && Legal(cfg, Initial(cfg), before + t.pre)
    && Clients.Handles(Run(cfg, Initial(cfg), before + t.pre), m, t.effect)
  }

  lemma {:induction false} AfterReads(cfg: ValidatedConfig, before: seq<Event>, seen: seq<Event>, id: nat)
    requires Legal(cfg, Initial(cfg), before) && Reads(seen, id)
    ensures Legal(cfg, Initial(cfg), before + seen) && OnlyInternal(seen)
    ensures var s, t := Run(cfg, Initial(cfg), before), Run(cfg, Initial(cfg), before + seen);
      t == s.(canceled := t.canceled)
    decreases |seen|
  {
    hide Initial;
    if seen == [] {
      assert before + seen == before;
    } else {
      var k := |seen| - 1;
      AfterReads(cfg, before, seen[..k], id);
      RunSnoc(cfg, Initial(cfg), before + seen[..k], ClientCancels(id));
      assert before + seen == before + seen[..k] + [ClientCancels(id)];
    }
  }

  /** The table tells where the entry is. */
  lemma TablePlaces(o: OwnerState, id: nat)
    requires o.Valid()
    ensures Clients.Waits(o.Abs(), id) <==> id in o.entries && o.entries[id].state == EntryQueued
    ensures Flying(o.Abs(), id) <==> id in o.entries && o.entries[id].state == EntryInflight
    ensures id in o.entries ==> o.entries[id].request.id == id
    ensures id in o.entries && o.entries[id].state == EntryInflight ==> (o.entries[id].cause.Some? <==> id in o.causes)
  {
    hide Sound, CountersOk, HeapOk, Legal, Run, Initial, Waiting;
    o.Invariant();
    if id in o.entries {
      o.EntryPlace(id);
      assert Waiting(o.tenants, o.entries[id].request) || o.entries[id].request in o.inflight;
    }
    if r :| Queued(o.Abs(), r) && r.id == id {
      assert Waiting(o.tenants, r);
    }
    if r :| r in o.inflight && r.id == id {
      assert r.id in o.entries;
    }
  }

  lemma LeavingKeepsPlaces(s: State, t: State, id: nat)
    requires t == s.(canceled := t.canceled)
    ensures Clients.Waits(t, id) == Clients.Waits(s, id) && Flying(t, id) == Flying(s, id)
  {
    assert forall r :: Queued(t, r) == Queued(s, r);
  }

  lemma NoPre(cfg: ValidatedConfig, before: seq<Event>, m: Clients.Message, effect: Option<Event>, post: seq<Event>)
    requires Legal(cfg, Initial(cfg), before) && OnlyInternal(post)
    requires Clients.Handles(Run(cfg, Initial(cfg), before), m, effect)
    ensures Serves(cfg, before, m, OwnerTurn([], effect, post))
    ensures before + Added(OwnerTurn([], effect, post)) == before + Steps(effect) + post
  {
    hide Legal, Run, Initial, Clients.Handles;
    assert before + [] == before;
  }

  method HandleAdmit(o: OwnerState, sub: Submission) returns (ghost t: OwnerTurn)
    requires Ready(o) && Acceptable(o, AdmitCommand(sub))
    modifies o, o.expiry
    ensures o.Valid() && o.history == old(o.history) + Added(t) && o.drainNotified == old(o.drainNotified)
    ensures o.accepting == old(o.accepting)
    ensures Serves(o.cfg, old(o.history), Clients.AdmitMessage(sub), t)
    ensures sub.id in o.results || exists x :: Queued(o.Abs(), x) && x.id == sub.id
  {
    hide o.Valid, Sound, TotalLoad, Legal, Run, Initial, Queued, Known, AdmitRefusal, WellFormed;
    ghost var was, before := o.Abs(), o.history;
    Backing(o);
    ghost var seen;
    var refusal;
    refusal, seen := o.Admit(sub);
    if refusal.None? {
      AcceptedTenant(o.cfg, was.(canceled := o.canceled), sub);
      AdmittedIsQueued(o, sub);
    }
    AfterReads(o.cfg, before, seen, sub.id);
    t := OwnerTurn(seen, Some(Event.Admit(sub)), []);
    assert before + Added(t) == before + seen + [Event.Admit(sub)];
  }

  method HandleCancel(o: OwnerState, id: nat) returns (r: CancelResult, ghost t: OwnerTurn)
    requires Ready(o)
    modifies o, o.expiry
    ensures o.Valid() && o.history == old(o.history) + Added(t) && o.drainNotified == old(o.drainNotified)
    ensures o.accepting == old(o.accepting)
    ensures Serves(o.cfg, old(o.history), Clients.CancelMessage(id, true), t)
    ensures r.CancelApplied? <==> t.effect.Some?
    ensures r == (if id !in old(o.entries) then CancelAlreadyTerminal
                  else if old(o.entries)[id].state == EntryQueued then CancelApplied
                  else if id in old(o.causes) then CancelAlreadyRequested else CancelApplied)
  {
    hide o.Valid, Sound, TotalLoad, Legal, Run, Initial, Queued, Flying, Clients.Waits;
    ghost var before := o.history;
    Backing(o);
    TablePlaces(o, id);
    ghost var effect;
    r, effect := o.CancelEntry(id);
    NoPre(o.cfg, before, Clients.CancelMessage(id, true), effect, []);
    t := OwnerTurn([], effect, []);
    assert before + Steps(effect) + [] == before + Steps(effect);
  }

  method HandleFinish(o: OwnerState, id: nat, serving: Serving) returns (r: TerminalResult, ghost t: OwnerTurn)
    requires Ready(o)
    modifies o, o.expiry
    ensures o.Valid() && o.history == old(o.history) + Added(t) && o.drainNotified == old(o.drainNotified)
    ensures o.accepting == old(o.accepting)
    ensures Serves(o.cfg, old(o.history), Clients.FinishMessage(id, serving), t)
    ensures r.accountingReleased <==> t.effect.Some?
    ensures r.accountingReleased ==>
      id in o.released && r.outcome == o.released[id] && NamedOutcome(o.causes, id, serving, r.outcome)
    ensures !r.accountingReleased ==> r.outcome == TerminalInternalFailure
    ensures forall x :: x in o.causes ==> (x in old(o.causes) && o.causes[x] == old(o.causes)[x])
                                          || (x == id && id in o.canceled && o.causes[x] == ByClient)
  {
    hide o.Valid, Sound, TotalLoad, Legal, Run, Initial, Queued, Flying, Clients.Waits, TerminalOutcome,
      CauseAtFinish, Without;
    ghost var before := o.history;
    ghost var was := o.Abs();
    Backing(o);
    TablePlaces(o, id);
    ghost var seen, effect;
    r, seen, effect := o.FinishEntry(id, serving);
    AfterReads(o.cfg, before, seen, id);
    LeavingKeepsPlaces(was, Run(o.cfg, Initial(o.cfg), before + seen), id);
    t := OwnerTurn(seen, effect, []);
    assert before + Added(t) == before + seen + Steps(effect);
  }

  method HandleDrain(o: OwnerState) returns (shutdown: nat, active: uint64, ghost t: OwnerTurn)
    requires Ready(o)
    modifies o, o.expiry
    ensures Ready(o) && !o.accepting && o.history == old(o.history) + Added(t)
      && o.drainNotified == old(o.drainNotified)
    ensures Serves(o.cfg, old(o.history), Clients.DrainMessage(0), t)
    ensures active == |o.inflight|
    ensures shutdown == ShutdownCount(AllQueues(old(o.tenants)), o.results)
    ensures AnsweredByDrain(AllQueues(old(o.tenants)), o.results, o.canceled)
  {
    hide o.Valid, Sound, TotalLoad, Legal, Run, Initial, Dropped, AnsweredByDrain, ShutdownCount, AllQueues;
    ghost var before := o.history;
    Backing(o);
    ghost var rest;
    shutdown, active, rest := o.BeginDrain();
    NoPre(o.cfg, before, Clients.DrainMessage(0), Some(StopAccepting), rest);
    t := OwnerTurn([], Some(StopAccepting), rest);
  }

  method HandleForceCancel(o: OwnerState) returns (signaled: nat, ghost t: OwnerTurn)
    requires Ready(o)
    modifies o, o.expiry
    ensures Ready(o) && !o.accepting && o.history == old(o.history) + Added(t)
      && o.drainNotified == old(o.drainNotified)
    ensures Serves(o.cfg, old(o.history), Clients.ForceCancelMessage, t)
    ensures o.inflight == old(o.inflight)
    ensures forall x :: x in o.inflight ==> Attributed(x, old(o.causes), o.causes, o.canceled)
    ensures signaled == StillServed(o.inflight, old(o.causes), o.canceled)
  {
    hide o.Valid, Sound, Legal, Run, Initial, StillServed, Attributed;
    ghost var before := o.history;
    ghost var was := o.Abs();
    Backing(o);
    ghost var rest;
    ghost var effect := if o.accepting then Some(StopAccepting) else None;
    signaled, rest := o.ForceCancelInflight();
    NoPre(o.cfg, before, Clients.ForceCancelMessage, effect, rest);
    t := OwnerTurn([], effect, rest);
    SameQueuesSameLoad(was, o.Abs());
  }

  lemma SameQueuesSameLoad(s: State, t: State)
    ensures t.tenants == s.tenants ==> TotalLoad(t.tenants) == TotalLoad(s.tenants)
  {
  }

  /**
   * One command. Its part of the history is events of the owner's own around the one
   * effect that the clients' model allows for its message.
   */
  method Handle(o: OwnerState, c: Command) returns (r: Response, ghost t: OwnerTurn)
    requires Ready(o) && Acceptable(o, c)
    modifies o, o.expiry
    ensures Ready(o) && o.history == old(o.history) + Added(t) && o.drainNotified == old(o.drainNotified)
    ensures Serves(o.cfg, old(o.history), MessageOf(c), t)
    ensures r.Stopping? <==> c.StopCommand?
    ensures c.StopCommand? ==> IsDrained(o.Abs()) && o.history == old(o.history) && t.post == []
    ensures c.DrainCommand? || c.ForceCancelCommand? ==> !o.accepting
    ensures c.ForceCancelCommand? ==>
      && (forall x :: x in o.inflight ==> Attributed(x, old(o.causes), o.causes, o.canceled))
      && r == ForceCancelResponse(StillServed(o.inflight, old(o.causes), o.canceled))
    ensures c.DrainCommand? ==>
      && r.DrainResponse? && r.active == |o.inflight|
      && r.shutdown == ShutdownCount(AllQueues(old(o.tenants)), o.results)
      && AnsweredByDrain(AllQueues(old(o.tenants)), o.results, o.canceled)
    ensures c.AdmitCommand? ==> c.sub.id in o.results || exists x :: Queued(o.Abs(), x) && x.id == c.sub.id
    ensures c.CancelCommand? ==> r.CancelResponse? && (r.cancel.CancelApplied? <==> t.effect.Some?)
    ensures c.FinishCommand? ==>
      && r.FinishResponse? && (r.terminal.accountingReleased <==> t.effect.Some?)
      && (r.terminal.accountingReleased ==>
            && c.entry in o.released && r.terminal.outcome == o.released[c.entry]
            && NamedOutcome(o.causes, c.entry, c.serving, r.terminal.outcome))
  {
    hide o.Valid, Sound, TotalLoad, Legal, Run, Initial, Queued, Known, IsDrained, WellFormed, StillServed,
      Attributed, ShutdownCount, AnsweredByDrain, AllQueues, NamedOutcome, Serves,
      Added;
    ghost var before := o.history;
    ghost var was := o.Abs();
    Backing(o);
    match c {
      case AdmitCommand(sub) =>
        t := HandleAdmit(o, sub);
        r := NoResponse;
      case CancelCommand(id) =>
        var result;
        result, t := HandleCancel(o, id);
        r := CancelResponse(result);
      case FinishCommand(id, serving) =>
        var result;
        result, t := HandleFinish(o, id, serving);
        r := FinishResponse(result);
      case DrainCommand =>
        var shutdown, active;
        shutdown, active, t := HandleDrain(o);
        r := DrainResponse(shutdown, active);
      case ForceCancelCommand =>
        var signaled;
        signaled, t := HandleForceCancel(o);
        r := ForceCancelResponse(signaled);
      case StopCommand =>
        AnnouncedIsDrained(o);
        if !(o.global.queuedCount == 0 && o.global.inflightCount == 0) {
          assert false;
        }
        NothingAdded(o.cfg, before);
        t := OwnerTurn([], None, []);
        r := Stopping;
    }
    if !o.accepting && !was.accepting {
      Backing(o);
      AddedExtends(before, t);
      DrainStaysEmpty(o, was, before);
    }
  }

  lemma NothingAdded(cfg: ValidatedConfig, before: seq<Event>)
    requires Legal(cfg, Initial(cfg), before) && IsDrained(Run(cfg, Initial(cfg), before))
    ensures Serves(cfg, before, Clients.StopMessage, OwnerTurn([], None, []))
      && before + Added(OwnerTurn([], None, [])) == before
  {
    hide Legal, Run, Initial, IsDrained;
    NoPre(cfg, before, Clients.StopMessage, None, []);
    assert before + [] + [] == before;
  }

  lemma AddedExtends(before: seq<Event>, t: OwnerTurn)
    ensures before <= before + Added(t)
  {
  }

  lemma AcceptedTenant(cfg: ValidatedConfig, s: State, sub: Submission)
    requires AdmitRefusal(cfg, s, sub).None?
    ensures sub.tenantID in cfg.tenantByID && cfg.tenantByID[sub.tenantID] < |s.tenants|
  {
    hide QueueLoad, TotalLoad, QueueLimitFailure;
  }

  lemma AdmittedIsQueued(o: OwnerState, sub: Submission)
    requires o.Valid() && sub.tenantID in o.cfg.tenantByID && o.cfg.tenantByID[sub.tenantID] < |o.tenants|
    requires var q := o.tenants[o.cfg.tenantByID[sub.tenantID]].queue; q != [] && q[|q| - 1].id == sub.id
    ensures exists x :: Queued(o.Abs(), x) && x.id == sub.id
  {
    hide o.Valid, Sound, Legal, Run, Initial;
    var t := o.cfg.tenantByID[sub.tenantID];
    var q := o.tenants[t].queue;
    o.InOwnQueue(t);
    o.Invariant();
    assert q[|q| - 1] in q;
  }

  /** Events of the owner's own before and after a turn belong to it. */
  lemma WiderTurn(cfg: ValidatedConfig, before: seq<Event>, due: seq<Event>, m: Clients.Message, t: OwnerTurn,
                  pumped: seq<Event>)
    requires OnlyInternal(due) && OnlyInternal(pumped) && Serves(cfg, before + due, m, t)
    ensures Serves(cfg, before, m, OwnerTurn(due + t.pre, t.effect, t.post + pumped))
    ensures before + due + Added(t) + pumped == before + Added(OwnerTurn(due + t.pre, t.effect, t.post + pumped))
  {
    hide Legal, Run, Initial, Clients.Handles;
    assert before + due + t.pre == before + (due + t.pre);
  }

  /**
   * One turn of the owner goroutine on a command. It ends settled, or stopped with
   * nothing queued and nothing in flight, and its events are those the clients' model
   * allows for one message.
   */
  method CommandTurn(o: OwnerState, c: Command) returns (r: Response, ghost t: OwnerTurn, ghost reading: int)
    requires Settled(o) && Acceptable(o, c)
    modifies o, o.expiry
    ensures o.Valid() && o.history == old(o.history) + Added(t) && Serves(o.cfg, old(o.history), MessageOf(c), t)
    ensures r.Stopping? <==> c.StopCommand?
    ensures r.Stopping? ==> IsDrained(o.Abs()) && t.post == []
    ensures !r.Stopping? ==> Settled(o)
    ensures old(o.drainNotified) ==> o.drainNotified
    ensures ReadFirst(old(o.history), o.history, reading) && Timely(o.Abs(), reading)
  {
    hide o.Valid, Sound, TotalLoad, Legal, Run, Initial, Queued, Known, IsDrained, WellFormed, WorkConserving,
      OnlyPumped, Serves, Added, AllFundings, Timely;
    ghost var before := o.history;
    Backing(o);
    var now := ExpireDue(o);
    reading := now;
    PumpedIsInternal(before, o.history);
    ghost var expired := o.history;
    ghost var due := o.history[|before|..];
    assert before + due == o.history;
    Backing(o);
    if c.AdmitCommand? {
      StillUnknown(o.cfg, before, o.history, c.sub.id);
    }
    r, t := Handle(o, c);
    ghost var handled := o.history;
    AddedExtends(expired, t);
    Backing(o);
    TimelyAfter(o.cfg, expired, handled, reading);
    if r.Stopping? {
      WiderTurn(o.cfg, before, due, MessageOf(c), t, []);
      t := OwnerTurn(due + t.pre, t.effect, t.post + []);
      assert handled + [] == handled;
      return;
    }
    PumpAndNotify(o);
    Backing(o);
    TimelyAfter(o.cfg, handled, o.history, reading);
    ghost var pumped := o.history[|handled|..];
    assert handled + pumped == o.history;
    WiderTurn(o.cfg, before, due, MessageOf(c), t, pumped);
    t := OwnerTurn(due + t.pre, t.effect, t.post + pumped);
  }

  /** One turn on the expiry timer. */
  method TimerTurn(o: OwnerState) returns (ghost reading: int)
    requires Settled(o)
    modifies o, o.expiry
    ensures Settled(o) && InternalAfter(old(o.history), o.history)
    ensures ReadFirst(old(o.history), o.history, reading) && Timely(o.Abs(), reading)
  {
    hide o.Valid, Sound, TotalLoad, Legal, Run, Initial, Queued, IsDrained, WorkConserving, OnlyPumped, Departs,
      AllFundings, Timely;
    ghost var before := o.history;
    var now := ExpireDue(o);
    reading := now;
    Backing(o);
    PumpedIsInternal(before, o.history);
    ghost var due := o.history;
    PumpAndNotify(o);
    Backing(o);
    TimelyAfter(o.cfg, due, o.history, reading);
    assert o.history[|before|..] == due[|before|..] + o.history[|due|..];
  }
}
