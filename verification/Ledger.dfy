/**
 * The owner's own records: counters, per-tenant state and the entry table, and
 * what it means for them to agree with the queues and the in-flight list.
 */
module Ledger {
  import opened Prelude
  import opened AdmissionConfig
  import opened Scheduling
  import opened SchedulingInvariant

  datatype Counters = Counters(queuedCount: uint64, queuedBytes: uint64, queuedWork: uint64,
                               inflightCount: uint64, inflightWork: uint64)
  {
    function AddQueued(bytes: uint64, work: uint64): (r: Counters) {
      this.(queuedCount := WrapAdd(queuedCount, 1), queuedBytes := WrapAdd(queuedBytes, bytes),
            queuedWork := WrapAdd(queuedWork, work))
    }

    /** Exactly then the subtractions below would wrap around. */
    predicate QueuedUnderflows(bytes: uint64, work: uint64)
      ensures !QueuedUnderflows(bytes, work) <==>
        var left := RemoveQueued(bytes, work);
        && left.queuedCount == queuedCount - 1 && left.queuedBytes == queuedBytes - bytes
        && left.queuedWork == queuedWork - work
    {
      queuedCount == 0 || queuedBytes < bytes || queuedWork < work
    }

    function RemoveQueued(bytes: uint64, work: uint64): (r: Counters) {
      this.(queuedCount := WrapSub(queuedCount, 1), queuedBytes := WrapSub(queuedBytes, bytes),
            queuedWork := WrapSub(queuedWork, work))
    }

    function AddInflight(work: uint64): (r: Counters) {
      this.(inflightCount := WrapAdd(inflightCount, 1), inflightWork := WrapAdd(inflightWork, work))
    }

    /** Exactly then the subtractions below would wrap around. */
    predicate InflightUnderflows(work: uint64)
      ensures !InflightUnderflows(work) <==>
        var left := RemoveInflight(work);
        left.inflightCount == inflightCount - 1 && left.inflightWork == inflightWork - work
    {
      inflightCount == 0 || inflightWork < work
    }

    function RemoveInflight(work: uint64): (r: Counters) {
      this.(inflightCount := WrapSub(inflightCount, 1), inflightWork := WrapSub(inflightWork, work))
    }
  }

  function QueuedLoad(c: Counters): (r: Load) { Load(c.queuedCount, c.queuedBytes, c.queuedWork) }

  function InflightLoad(c: Counters): (r: Load) { Load(c.inflightCount, 0, c.inflightWork) }

  datatype TenantState = TenantState(config: ValidatedTenant, queue: seq<Request>, deficit: uint64, visitOpen: bool,
                                     counters: Counters)

  datatype EntryState = EntryQueued | EntryInflight

  datatype Phase = PhaseQueued | PhaseInflight | PhaseNone

  /** The mutable part of an entry in the owner's table. */
  datatype Record = Record(request: Request, state: EntryState, phase: Phase, cause: Option<Cause>)

  // ---------------------------------------------------------------------
  // Agreement
  // ---------------------------------------------------------------------

  function Plain(t: TenantState): (r: Tenant) {
    Tenant(t.queue, t.deficit, t.visitOpen)
  }

  function PlainAll(ts: seq<TenantState>): (r: seq<Tenant>) {
    seq(|ts|, i requires 0 <= i < |ts| => Plain(ts[i]))
  }

  predicate Counts(c: Counters, queued: Load, flying: Load) {
    && c.queuedCount == queued.count && c.queuedBytes == queued.bytes && c.queuedWork == queued.work
    && c.inflightCount == flying.count && c.inflightWork == flying.work
  }

  /** Every counter is the sum it stands for; no counter has wrapped. */
  ghost predicate CountersOk(cfg: ValidatedConfig, ts: seq<TenantState>, global: Counters, inflight: seq<Request>) {
    && |ts| == |cfg.tenants|
    && (forall t :: 0 <= t < |ts| ==> ts[t].config == cfg.tenants[t])
    && (forall t :: 0 <= t < |ts| ==> Counts(ts[t].counters, QueueLoad(ts[t].queue), TenantLoad(inflight, t)))
    && Counts(global, TotalLoad(PlainAll(ts)), QueueLoad(inflight))
  }

  ghost predicate Waiting(ts: seq<TenantState>, r: Request) {
    r.tenant < |ts| && r in ts[r.tenant].queue
  }

  /** The table is the disjoint union of the queues and the in-flight list. */
  ghost predicate EntriesOk(ts: seq<TenantState>, inflight: seq<Request>, entries: map<nat, Record>,
                            causes: map<nat, Cause>) {
    && (forall r :: Waiting(ts, r) ==>
          r.id in entries && entries[r.id] == Record(r, EntryQueued, PhaseQueued, None))
    && (forall r :: r in inflight ==>
          r.id in entries && entries[r.id] == Record(r, EntryInflight, PhaseInflight, CauseOf(causes, r.id)))
    && (forall id :: id in entries ==>
          entries[id].request.id == id && (Waiting(ts, entries[id].request) || entries[id].request in inflight))
  }

  function CauseOf(causes: map<nat, Cause>, id: nat): (r: Option<Cause>) {
    if id in causes then Some(causes[id]) else None
  }

  /** The heap holds exactly the queued entries. */
  ghost predicate HeapOk(ts: seq<TenantState>, heap: seq<Request>) {
    forall r :: r in heap <==> Waiting(ts, r)
  }

  lemma WaitingIsQueued(s: State, ts: seq<TenantState>)
    requires s.tenants == PlainAll(ts)
    ensures forall r :: Waiting(ts, r) <==> Queued(s, r)
  {
  }

  // ---------------------------------------------------------------------
  // Taking an entry out of its queue
  // ---------------------------------------------------------------------

  /** A tenant after one of its queued entries is gone. */
  function TakenOut(t: TenantState, r: Request): (result: TenantState) {
    var left := t.(queue := Without(t.queue, r), counters := t.counters.RemoveQueued(r.bytes, r.work));
    if left.queue == [] then left.(deficit := 0, visitOpen := false) else left
  }

  lemma TakenOutPlain(ts: seq<TenantState>, r: Request)
    requires r.tenant < |ts|
    ensures PlainAll(ts[r.tenant := TakenOut(ts[r.tenant], r)])
            == PlainAll(ts)[r.tenant := Settle(Plain(ts[r.tenant]).(queue := Without(ts[r.tenant].queue, r)))]
  {
    hide Without;
  }

  lemma SettleQueue(t: Tenant)
    ensures Settle(t).queue == t.queue
  {
  }

  lemma CountersTakenOut(cfg: ValidatedConfig, ts: seq<TenantState>, global: Counters, inflight: seq<Request>,
                         r: Request)
    requires CountersOk(cfg, ts, global, inflight) && Waiting(ts, r)
    ensures !ts[r.tenant].counters.QueuedUnderflows(r.bytes, r.work) && !global.QueuedUnderflows(r.bytes, r.work)
    ensures CountersOk(cfg, ts[r.tenant := TakenOut(ts[r.tenant], r)], global.RemoveQueued(r.bytes, r.work), inflight)
  {
    hide QueueLoad, TotalLoad, TenantLoad, Without, PlainAll, Settle;
    var t := r.tenant;
    var q := ts[t].queue;
    QueueLoadWithout(q, r);
    var after := Settle(Plain(ts[t]).(queue := Without(q, r)));
    SettleQueue(Plain(ts[t]).(queue := Without(q, r)));
    PlainAllAt(ts, t);
    TotalLoadUpdate(PlainAll(ts), t, after, LoadOf(r));
    TakenOutPlain(ts, r);
  }

  lemma PlainAllAt(ts: seq<TenantState>, t: nat)
    requires t < |ts|
    ensures |PlainAll(ts)| == |ts| && PlainAll(ts)[t] == Plain(ts[t])
  {
  }

  lemma RemovedOne(cfg: ValidatedConfig, ts: seq<TenantState>, global: Counters, inflight: seq<Request>, r: Request)
    requires CountersOk(cfg, ts, global, inflight) && Waiting(ts, r)
    ensures global.queuedCount > 0
    ensures global.RemoveQueued(r.bytes, r.work).queuedCount == global.queuedCount - 1
  {
    hide CountersOk;
    CountersTakenOut(cfg, ts, global, inflight, r);
  }

  lemma TakenOutWaiting(ts: seq<TenantState>, r: Request)
    requires Waiting(ts, r) && Distinct(ts[r.tenant].queue)
    ensures forall x :: Waiting(ts[r.tenant := TakenOut(ts[r.tenant], r)], x) <==> Waiting(ts, x) && x != r
  {
    hide Without;
    WithoutMembers(ts[r.tenant].queue, r);
  }

  // ---------------------------------------------------------------------
  // Adding to a queue and to the in-flight list
  // ---------------------------------------------------------------------

  function PutIn(t: TenantState, r: Request): (result: TenantState) {
    t.(queue := t.queue + [r], counters := t.counters.AddQueued(r.bytes, r.work))
  }

  lemma CountersPutIn(cfg: ValidatedConfig, ts: seq<TenantState>, global: Counters, inflight: seq<Request>, r: Request)
    requires CountersOk(cfg, ts, global, inflight) && r.tenant < |ts|
    requires QueueLimitFailure(QueueLoad(ts[r.tenant].queue), r.bytes, r.work, cfg.tenants[r.tenant].queue).None?
    requires QueueLimitFailure(TotalLoad(PlainAll(ts)), r.bytes, r.work, cfg.globalQueue).None?
    ensures CountersOk(cfg, ts[r.tenant := PutIn(ts[r.tenant], r)], global.AddQueued(r.bytes, r.work), inflight)
    ensures PlainAll(ts[r.tenant := PutIn(ts[r.tenant], r)])
            == PlainAll(ts)[r.tenant := Plain(ts[r.tenant]).(queue := ts[r.tenant].queue + [r])]
  {
    hide QueueLoad, TotalLoad, TenantLoad;
    var t := r.tenant;
    QueueLoadAppend(ts[t].queue, r);
    var after := Plain(ts[t]).(queue := ts[t].queue + [r]);
    TotalLoadUpdate(PlainAll(ts), t, after, LoadOf(r));
    assert PlainAll(ts[t := PutIn(ts[t], r)]) == PlainAll(ts)[t := after];
  }

  lemma PutInWaiting(ts: seq<TenantState>, r: Request)
    requires r.tenant < |ts|
    ensures forall x :: Waiting(ts[r.tenant := PutIn(ts[r.tenant], r)], x) <==> Waiting(ts, x) || x == r
  {
    var q := ts[r.tenant].queue;
    var after := ts[r.tenant := PutIn(ts[r.tenant], r)];
    forall x ensures Waiting(after, x) <==> Waiting(ts, x) || x == r {
      assert x in q + [r] <==> x in q || x == r;
      assert after[r.tenant].queue == q + [r];
      assert x.tenant < |ts| && x.tenant != r.tenant ==> after[x.tenant] == ts[x.tenant];
    }
  }

  function Charged(t: TenantState, work: uint64): (r: TenantState) {
    t.(counters := t.counters.AddInflight(work))
  }

  lemma CountersCharged(cfg: ValidatedConfig, ts: seq<TenantState>, global: Counters, inflight: seq<Request>,
                        r: Request)
    requires CountersOk(cfg, ts, global, inflight) && r.tenant < |ts|
    requires InflightFits(TenantLoad(inflight, r.tenant), r.work, cfg.tenants[r.tenant].inflight)
    requires InflightFits(QueueLoad(inflight), r.work, cfg.globalInflight)
    ensures CountersOk(cfg, ts[r.tenant := Charged(ts[r.tenant], r.work)], global.AddInflight(r.work), inflight + [r])
    ensures PlainAll(ts[r.tenant := Charged(ts[r.tenant], r.work)]) == PlainAll(ts)
  {
    hide QueueLoad, TotalLoad, TenantLoad;
    QueueLoadAppend(inflight, r);
    forall t | 0 <= t < |ts| ensures IsSum(TenantLoad(inflight + [r], t), TenantLoad(inflight, t), OwnLoad(r, t)) {
      TenantLoadAppend(inflight, r, t);
    }
    assert PlainAll(ts[r.tenant := Charged(ts[r.tenant], r.work)]) == PlainAll(ts);
  }

  function Refunded(t: TenantState, work: uint64): (r: TenantState) {
    t.(counters := t.counters.RemoveInflight(work))
  }

  lemma CountersRefunded(cfg: ValidatedConfig, ts: seq<TenantState>, global: Counters, inflight: seq<Request>,
                         r: Request)
    requires CountersOk(cfg, ts, global, inflight) && r.tenant < |ts| && r in inflight
    ensures !ts[r.tenant].counters.InflightUnderflows(r.work) && !global.InflightUnderflows(r.work)
    ensures CountersOk(cfg, ts[r.tenant := Refunded(ts[r.tenant], r.work)], global.RemoveInflight(r.work),
                       Without(inflight, r))
    ensures PlainAll(ts[r.tenant := Refunded(ts[r.tenant], r.work)]) == PlainAll(ts)
  {
    hide QueueLoad, TotalLoad, TenantLoad, Without;
    QueueLoadWithout(inflight, r);
    forall t | 0 <= t < |ts|
      ensures IsSum(TenantLoad(inflight, t), TenantLoad(Without(inflight, r), t), OwnLoad(r, t))
    {
      TenantLoadWithout(inflight, r, t);
    }
    assert PlainAll(ts[r.tenant := Refunded(ts[r.tenant], r.work)]) == PlainAll(ts);
  }

  /** Changing credit and visit flags only leaves every count right. */
  lemma CountersRetuned(cfg: ValidatedConfig, ts: seq<TenantState>, global: Counters, inflight: seq<Request>,
                        t: nat, deficit: uint64, open: bool)
    requires CountersOk(cfg, ts, global, inflight) && t < |ts|
    ensures CountersOk(cfg, ts[t := ts[t].(deficit := deficit, visitOpen := open)], global, inflight)
    ensures PlainAll(ts[t := ts[t].(deficit := deficit, visitOpen := open)])
            == PlainAll(ts)[t := Plain(ts[t]).(deficit := deficit, visitOpen := open)]
    ensures forall x :: Waiting(ts[t := ts[t].(deficit := deficit, visitOpen := open)], x) <==> Waiting(ts, x)
  {
    hide QueueLoad, TotalLoad, TenantLoad;
    var after := ts[t := ts[t].(deficit := deficit, visitOpen := open)];
    assert PlainAll(after) == PlainAll(ts)[t := Plain(ts[t]).(deficit := deficit, visitOpen := open)];
    TotalLoadSameQueues(PlainAll(ts), PlainAll(after));
  }

  // ---------------------------------------------------------------------
  // The entry table
  // ---------------------------------------------------------------------

  lemma TakenOutIsLeave(s: State, ts: seq<TenantState>, r: Request)
    requires s.tenants == PlainAll(ts) && r.tenant < |ts|
    ensures PlainAll(ts[r.tenant := TakenOut(ts[r.tenant], r)]) == Leave(s, r).tenants
  {
    hide Without;
    TakenOutPlain(ts, r);
  }

  lemma EntriesDropped(ts: seq<TenantState>, inflight: seq<Request>, entries: map<nat, Record>, causes: map<nat, Cause>,
                       r: Request, after: seq<TenantState>)
    requires EntriesOk(ts, inflight, entries, causes) && Waiting(ts, r)
    requires forall x :: Waiting(after, x) <==> Waiting(ts, x) && x != r
    ensures EntriesOk(after, inflight, entries - {r.id}, causes)
  {
    hide Waiting;
  }

  lemma EntriesDispatched(ts: seq<TenantState>, inflight: seq<Request>, entries: map<nat, Record>,
                          causes: map<nat, Cause>,
                          r: Request, after: seq<TenantState>)
    requires EntriesOk(ts, inflight, entries, causes) && Waiting(ts, r) && r.id !in causes
    requires forall x :: Waiting(after, x) <==> Waiting(ts, x) && x != r
    ensures EntriesOk(after, inflight + [r], entries[r.id := Record(r, EntryInflight, PhaseInflight, None)], causes)
  {
    hide Waiting;
    assert forall x :: x in inflight + [r] <==> x in inflight || x == r;
  }

  lemma EntriesAdmitted(ts: seq<TenantState>, inflight: seq<Request>, entries: map<nat, Record>,
                        causes: map<nat, Cause>,
                        r: Request, after: seq<TenantState>)
    requires EntriesOk(ts, inflight, entries, causes)
    requires forall x :: Waiting(ts, x) || x in inflight ==> x.id != r.id
    requires forall x :: Waiting(after, x) <==> Waiting(ts, x) || x == r
    ensures EntriesOk(after, inflight, entries[r.id := Record(r, EntryQueued, PhaseQueued, None)], causes)
  {
    hide Waiting;
  }

  lemma EntriesReleased(ts: seq<TenantState>, inflight: seq<Request>, entries: map<nat, Record>,
                        causes: map<nat, Cause>,
                        r: Request, left: seq<Request>, after: map<nat, Cause>)
    requires EntriesOk(ts, inflight, entries, causes) && r in inflight
    requires forall x :: x in left <==> x in inflight && x != r
    requires forall id :: id != r.id ==> CauseOf(after, id) == CauseOf(causes, id)
    ensures EntriesOk(ts, left, entries - {r.id}, after)
  {
    hide Waiting, CauseOf;
  }

  lemma EntriesSignaled(ts: seq<TenantState>, inflight: seq<Request>, entries: map<nat, Record>,
                        causes: map<nat, Cause>,
                        r: Request, cause: Cause)
    requires EntriesOk(ts, inflight, entries, causes) && r in inflight
    ensures r.id in entries
    ensures EntriesOk(ts, inflight, entries[r.id := entries[r.id].(cause := Some(cause))], causes[r.id := cause])
  {
    hide Waiting;
  }

  lemma EntriesMoved(ts: seq<TenantState>, inflight: seq<Request>, entries: map<nat, Record>, causes: map<nat, Cause>,
                     after: seq<TenantState>)
    requires EntriesOk(ts, inflight, entries, causes)
    requires forall x :: Waiting(after, x) <==> Waiting(ts, x)
    ensures EntriesOk(after, inflight, entries, causes)
  {
    hide Waiting;
  }
}
