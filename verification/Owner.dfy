/**
 * The owner of all scheduler state. Every method performs a legal sequence of
 * scheduling events; `Valid` says that the whole history since construction is
 * such a sequence and that the owner's records agree with the state it leads to.
 */
module Owner {
  import opened Prelude
  import opened AdmissionConfig
  import opened Scheduling
  import opened SchedulingInvariant
  import opened Ledger
  import opened Fairness
  import opened FundingCost
  import opened Barrier
  import opened Outcomes
  import Heap = ExpiryQueue

  /** The later history only adds pump events. */
  ghost predicate OnlyPumped(before: seq<Event>, after: seq<Event>) {
    before <= after && forall i :: |before| <= i < |after| ==> PumpEvent(after[i])
  }

  /** Readings of one client's context. */
  ghost predicate Reads(es: seq<Event>, id: nat) {
    forall i :: 0 <= i < |es| ==> es[i] == ClientCancels(id)
  }

  function Steps(effect: Option<Event>): (r: seq<Event>) {
    if effect.Some? then [effect.value] else []
  }

  ghost predicate OnlyInternal(es: seq<Event>) {
    forall i :: 0 <= i < |es| ==> Internal(es[i])
  }

  /** The entries removed without service, in order. */
  function Dropped(es: seq<Event>): (r: seq<Request>) {
    if es == [] then [] else
      var e := es[|es| - 1];
      Dropped(es[..|es| - 1]) + (if e.Drop? then [e.dropped] else [])
  }

  lemma DroppedSnoc(es: seq<Event>, e: Event)
    ensures Dropped(es + [e]) == Dropped(es) + (if e.Drop? then [e.dropped] else [])
  {
    assert (es + [e])[..|es|] == es;
    assert Dropped(es) + [] == Dropped(es);
  }

  /** The entries of a queue whose deadline is still ahead, in their order. */
  function Surviving(q: seq<Request>, now: int): (r: seq<Request>) {
    if q == [] then [] else
      if q[0].deadline > now then [q[0]] + Surviving(q[1..], now) else Surviving(q[1..], now)
  }

  lemma {:induction false} SurvivingWithout(q: seq<Request>, r: Request, now: int)
    requires r.deadline <= now
    ensures Surviving(Without(q, r), now) == Surviving(q, now)
  {
    if q != [] && q[0] != r {
      assert Without(q, r)[1..] == Without(q[1..], r);
      SurvivingWithout(q[1..], r, now);
    }
  }

  lemma {:induction false} AllSurvive(q: seq<Request>, now: int)
    requires forall r :: r in q ==> r.deadline > now
    ensures Surviving(q, now) == q
  {
    if q != [] {
      AllSurvive(q[1..], now);
    }
  }

  /** In deadline order, ties by admission. */
  ghost predicate InDeadlineOrder(q: seq<Request>) {
    forall i, j :: 0 <= i < j < |q| ==>
      q[i].deadline < q[j].deadline || (q[i].deadline == q[j].deadline && q[i].sequence <= q[j].sequence)
  }

  /** How many of these entries were answered with a shutdown. */
  function ShutdownCount(q: seq<Request>, results: map<nat, Decision>): (r: nat) {
    if q == [] then 0 else
      var r := q[|q| - 1];
      ShutdownCount(q[..|q| - 1], results) + (if r.id in results && results[r.id] == Shutdown then 1 else 0)
  }

  lemma {:induction false} ShutdownCountGrows(q: seq<Request>, results: map<nat, Decision>, id: nat, d: Decision)
    requires forall r :: r in q ==> r.id != id
    ensures ShutdownCount(q, results[id := d]) == ShutdownCount(q, results)
  {
    if q != [] {
      assert q[|q| - 1] in q;
      ShutdownCountGrows(q[..|q| - 1], results, id, d);
    }
  }

  lemma ShutdownCountNext(gone: seq<Request>, results: map<nat, Decision>, item: Request, d: Decision)
    requires forall r :: r in gone ==> r.id in results
    requires item.id !in results
    ensures ShutdownCount(gone + [item], results[item.id := d])
            == ShutdownCount(gone, results) + (if d == Shutdown then 1 else 0)
  {
    ShutdownCountGrows(gone, results, item.id, d);
    assert (gone + [item])[..|gone|] == gone;
  }

  /** Drain answers with a cancellation when the client had left, and else with a shutdown. */
  ghost predicate AnsweredByDrain(gone: seq<Request>, results: map<nat, Decision>, canceled: set<nat>) {
    forall r :: r in gone ==> Answered(r, results, canceled)
  }

  ghost predicate Answered(r: Request, results: map<nat, Decision>, canceled: set<nat>) {
    r.id in results && results[r.id] == (if r.id in canceled then CanceledQueued else Shutdown)
  }

  lemma AnsweredNext(gone: seq<Request>, results: map<nat, Decision>, canceled: set<nat>, item: Request, now: set<nat>)
    requires AnsweredByDrain(gone, results, canceled) && item.id !in results && canceled <= now <= canceled + {item.id}
    ensures var answer := if item.id in now then CanceledQueued else Shutdown;
      && AnsweredByDrain(gone + [item], results[item.id := answer], now)
      && ShutdownCount(gone + [item], results[item.id := answer])
         == ShutdownCount(gone, results) + (if item.id in now then 0 else 1)
  {
    var answer := if item.id in now then CanceledQueued else Shutdown;
    forall r | r in gone ensures Answered(r, results[item.id := answer], now) {
      assert Answered(r, results, canceled);
    }
    ShutdownCountNext(gone, results, item, answer);
  }

  /** Results that were there stay, and the new ones are those of `gone`. */
  ghost predicate OnlyAnswers(before: map<nat, Decision>, after: map<nat, Decision>, gone: seq<Request>) {
    && (forall id :: id in before ==> id in after && after[id] == before[id])
    && (forall id :: id in after && id !in before ==> exists r :: r in gone && r.id == id)
    && (forall r :: r in gone ==> r.id in after && r.id !in before)
  }

  lemma OnlyAnswersNext(before: map<nat, Decision>, after: map<nat, Decision>, gone: seq<Request>, item: Request,
                        d: Decision)
    requires OnlyAnswers(before, after, gone) && item.id !in after
    ensures OnlyAnswers(before, after[item.id := d], gone + [item])
  {
    var now := after[item.id := d];
    forall id | id in now && id !in before ensures exists r :: r in gone + [item] && r.id == id {
      if id == item.id {
        assert item in gone + [item];
      } else {
        var r :| r in gone && r.id == id;
        assert r in gone + [item];
      }
    }
  }

  /** All queues, one after the other. */
  function AllQueues(ts: seq<TenantState>): (q: seq<Request>) {
    if ts == [] then [] else AllQueues(ts[..|ts| - 1]) + ts[|ts| - 1].queue
  }

  /** How many of these requests had no cause before and have a client that is still there. */
  function StillServed(q: seq<Request>, before: map<nat, Cause>, canceled: set<nat>): (r: nat) {
    if q == [] then 0 else
      var r := q[|q| - 1];
      StillServed(q[..|q| - 1], before, canceled) + (if r.id !in before && r.id !in canceled then 1 else 0)
  }

  lemma {:induction false} StillServedSame(q: seq<Request>, before: map<nat, Cause>, canceled: set<nat>, now: set<nat>,
                                           id: nat)
    requires canceled <= now <= canceled + {id} && forall r :: r in q ==> r.id != id
    ensures StillServed(q, before, now) == StillServed(q, before, canceled)
  {
    if q != [] {
      assert q[|q| - 1] in q;
      StillServedSame(q[..|q| - 1], before, canceled, now, id);
    }
  }

  /** A new cause is the client's own exactly when it was found gone, and shutdown otherwise. */
  ghost predicate Attributed(r: Request, before: map<nat, Cause>, after: map<nat, Cause>, canceled: set<nat>) {
    && r.id in after
    && (r.id in before ==> after[r.id] == before[r.id])
    && (r.id !in before ==> after[r.id] == if r.id in canceled then ByClient else ByShutdown)
  }

  /** How much credit a waiting tenant can still be granted before it is at the cap. */
  function TenantSlack(cap: nat, t: Tenant): (r: nat) {
    if t.queue == [] || t.deficit > cap then 0 else 2 * (cap - t.deficit) + (if t.visitOpen then 1 else 0)
  }

  function Slack(cap: nat, ts: seq<Tenant>): (r: nat) {
    if ts == [] then 0 else TenantSlack(cap, ts[0]) + Slack(cap, ts[1..])
  }

  lemma {:induction false} SlackUpdate(cap: nat, ts: seq<Tenant>, i: nat, t: Tenant)
    requires i < |ts|
    ensures Slack(cap, ts[i := t]) + TenantSlack(cap, ts[i]) == Slack(cap, ts) + TenantSlack(cap, t)
  {
    hide TenantSlack;
    if i == 0 {
      assert ts[i := t][1..] == ts[1..];
    } else {
      assert ts[i := t][1..] == ts[1..][i - 1 := t];
      SlackUpdate(cap, ts[1..], i - 1, t);
    }
  }

  function NextPosition(i: nat, n: nat): (r: nat) { if i + 1 >= n then 0 else i + 1 }

  /** What one visit of the pump came to. */
  datatype Passing = Stopped | Passed(dispatched: bool, needsFunding: bool)

  /** What one look at the head of an open visit came to; `HeadWaits` ends the pump. */
  datatype HeadStep = HeadBlocked | HeadUnfunded | HeadRemoved | HeadWaits | HeadServed

  /** What has expired so far is in order, and nothing still waiting comes before it. */
  ghost predicate ExpiredSoFar(gone: seq<Request>, ts: seq<TenantState>, now: int) {
    && InDeadlineOrder(gone)
    && (forall d :: d in gone ==> d.deadline <= now)
    && (forall d, r :: d in gone && Waiting(ts, r) ==> !Heap.Less(r, d))
  }

  lemma ExpiredNext(gone: seq<Request>, ts: seq<TenantState>, now: int, item: Request, after: seq<TenantState>)
    requires ExpiredSoFar(gone, ts, now) && Waiting(ts, item) && item.deadline <= now
    requires forall r :: Waiting(ts, r) ==> !Heap.Less(r, item)
    requires forall x :: Waiting(after, x) <==> Waiting(ts, x) && x != item
    ensures ExpiredSoFar(gone + [item], after, now)
  {
    hide Waiting, Heap.Less;
    assert forall i :: 0 <= i < |gone| ==> gone[i] in gone;
  }

  /** A passed deadline is a cancellation for a client that left or set it itself, and else an expiry. */
  ghost predicate AnsweredLate(gone: seq<Request>, results: map<nat, Decision>, canceled: set<nat>) {
    forall r :: r in gone ==> Late(r, results, canceled)
  }

  ghost predicate Late(r: Request, results: map<nat, Decision>, canceled: set<nat>) {
    && r.id in results
    && results[r.id] == (if r.id in canceled || r.clientDeadline then CanceledQueued else QueueExpired)
  }

  lemma AnsweredLateNext(gone: seq<Request>, results: map<nat, Decision>, canceled: set<nat>, item: Request,
                         now: set<nat>)
    requires AnsweredLate(gone, results, canceled) && item.id !in results && canceled <= now <= canceled + {item.id}
    ensures var answer := if item.id in now || item.clientDeadline then CanceledQueued else QueueExpired;
      AnsweredLate(gone + [item], results[item.id := answer], now)
  {
    var answer := if item.id in now || item.clientDeadline then CanceledQueued else QueueExpired;
    forall r | r in gone ensures Late(r, results[item.id := answer], now) {
      assert Late(r, results, canceled);
    }
  }

  lemma NobodyLate(results: map<nat, Decision>, canceled: set<nat>)
    ensures AnsweredLate([], results, canceled) && OnlyAnswers(results, results, [])
  {
  }

  class OwnerState {
    const cfg: ValidatedConfig
    const expiry: Heap.ExpiryQueue

    var tenants: seq<TenantState>
    var entries: map<nat, Record>
    var inflight: seq<Request>
    var cursor: nat
    var sequence: nat
    var accepting: bool
    var global: Counters
    var drainNotified: bool

    /** The latest reading of the clock and the clients seen to have gone away. */
    var now: int
    var canceled: set<nat>

    /** What the clients' result channels hold. */
    var results: map<nat, Decision>

    ghost var causes: map<nat, Cause>
    ghost var released: map<nat, Terminal>
    ghost var history: seq<Event>

    ghost function Abs(): (r: State)
      reads this
    {
      State(PlainAll(tenants), cursor, inflight, causes, results, released, sequence, accepting, drainNotified, now,
        canceled)
    }

    ghost predicate Agrees()
      reads this, expiry
    {
      && expiry.Valid()
      && CountersOk(cfg, tenants, global, inflight)
      && EntriesOk(tenants, inflight, entries, causes)
      && HeapOk(tenants, expiry.q)
    }

    ghost predicate Valid()
      reads this, expiry
    {
      && Sound(cfg)
      && Agrees()
      && Legal(cfg, Initial(cfg), history)
      && Run(cfg, Initial(cfg), history) == Abs()
    }

    constructor (config: ValidatedConfig)
      requires Sound(config)
      ensures Valid() && cfg == config && history == [] && fresh(expiry)
      ensures accepting && !drainNotified && inflight == [] && global == Counters(0, 0, 0, 0, 0)
    {
      cfg := config;
      expiry := new Heap.ExpiryQueue();
      tenants := seq(|config.tenants|, i requires 0 <= i < |config.tenants| =>
                       TenantState(config.tenants[i], [], 0, false, Counters(0, 0, 0, 0, 0)));
      entries, inflight := map[], [];
      cursor, sequence, accepting, drainNotified := 0, 0, true, false;
      global := Counters(0, 0, 0, 0, 0);
      now, canceled, results := 0, {}, map[];
      causes, released, history := map[], map[], [];
      new;
      assert PlainAll(tenants) == Initial(cfg).tenants;
      InitialLoads(PlainAll(tenants));
    }

    /** The scheduling invariant holds in every state of the owner. */
    lemma Invariant()
      requires Valid()
      ensures Inv(cfg, Abs()) && |tenants| == |cfg.tenants| && cursor < |tenants|
      ensures forall r :: Waiting(tenants, r) <==> Queued(Abs(), r)
      ensures forall r :: Waiting(tenants, r) ==> Distinct(tenants[r.tenant].queue)
    {
      hide Inv, Agrees, Legal, Run, Sound;
      InitialInv(cfg);
      RunInv(cfg, Initial(cfg), history);
      Framed();
      WaitingIsQueued(Abs(), tenants);
    }

    lemma Framed()
      requires Inv(cfg, Abs())
      ensures |tenants| == |cfg.tenants| && cursor < |tenants|
      ensures forall r :: Waiting(tenants, r) ==> Distinct(tenants[r.tenant].queue)
    {
      hide Limits, Identity;
      forall r | Waiting(tenants, r) ensures Distinct(tenants[r.tenant].queue) {
        assert QueueOk(cfg, r.tenant, PlainAll(tenants)[r.tenant].queue, sequence);
      }
    }

    /** Appends the event that the fields already show. */
    ghost method Note(e: Event)
      requires Sound(cfg) && Agrees() && Legal(cfg, Initial(cfg), history)
      requires Enabled(cfg, Run(cfg, Initial(cfg), history), e)
      requires Apply(cfg, Run(cfg, Initial(cfg), history), e) == Abs()
      modifies this`history
      ensures Valid() && history == old(history) + [e]
    {
      hide Sound, CountersOk, EntriesOk, HeapOk, Legal, Run, Enabled, Apply;
      RunSnoc(cfg, Initial(cfg), history, e);
      history := history + [e];
    }

    // -------------------------------------------------------------------
    // Readings
    // -------------------------------------------------------------------

    /** A clock reading never goes back. */
    method Now() returns (reading: int)
      requires Valid()
      modifies this`now, this`history
      ensures Valid() && reading == now && old(now) <= now
      ensures history == old(history) + [Tick(now)]
    {
      hide Sound, CountersOk, EntriesOk, HeapOk, Legal, Run, Enabled, Apply;
      reading :| reading >= now;
      ReadingEffect(cfg, Abs(), reading, 0);
      now := reading;
      Note(Tick(reading));
    }

    static lemma ReadingEffect(c: ValidatedConfig, s: State, reading: int, id: nat)
      ensures s.now <= reading ==> Enabled(c, s, Tick(reading)) && Apply(c, s, Tick(reading)) == s.(now := reading)
      ensures Enabled(c, s, ClientCancels(id)) && Apply(c, s, ClientCancels(id)) == s.(canceled := s.canceled + {id})
      ensures Enabled(c, s, StopAccepting) && Apply(c, s, StopAccepting) == s.(accepting := false)
    {
    }

    /** A client that has gone away stays away. */
    method ClientErr(id: nat) returns (gone: bool, ghost seen: seq<Event>)
      requires Valid()
      modifies this`canceled, this`history
      ensures Valid() && gone == (id in canceled) && old(canceled) <= canceled <= old(canceled) + {id}
      ensures history == old(history) + seen && Reads(seen, id) && |seen| <= 1
      ensures OnlyPumped(old(history), history) && Dropped(history) == Dropped(old(history))
    {
      hide Sound, CountersOk, EntriesOk, HeapOk, Legal, Run, Enabled, Apply, Dropped;
      DroppedSnoc(history, ClientCancels(id));
      ReadingEffect(cfg, Abs(), now, id);
      var leaves: bool := *;
      seen := [];
      if leaves {
        canceled := canceled + {id};
        Note(ClientCancels(id));
        seen := [ClientCancels(id)];
      }
      assert history == old(history) + seen;
      gone := id in canceled;
    }

    // -------------------------------------------------------------------
    // Leaving the queue
    // -------------------------------------------------------------------

    /** Takes an entry out of its queue, the heap and the counters; no panic is reachable. */
    method RemoveQueued(item: Request)
      requires Agrees() && Waiting(tenants, item) && Distinct(tenants[item.tenant].queue)
      modifies this`tenants, this`global, this`entries, expiry
      ensures item.tenant < |old(tenants)| && item.id in old(entries)
      ensures tenants == old(tenants)[item.tenant := TakenOut(old(tenants)[item.tenant], item)]
      ensures global == old(global).RemoveQueued(item.bytes, item.work)
      ensures entries == old(entries)[item.id := old(entries)[item.id].(phase := PhaseNone)]
      ensures expiry.Valid() && HeapOk(tenants, expiry.q)
      ensures CountersOk(cfg, tenants, global, inflight)
    {
      hide CountersOk, Without, TakenOut;
      CountersTakenOut(cfg, tenants, global, inflight, item);
      TakenOutWaiting(tenants, item);
      if entries[item.id].phase != PhaseQueued {
        assert false;
      }
      OneOnHeap(item);
      ghost var heap := expiry.q;
      expiry.Remove(item);
      Unlisted(heap, expiry.q, item);
      var t := item.tenant;
      if tenants[t].counters.QueuedUnderflows(item.bytes, item.work) || global.QueuedUnderflows(item.bytes, item.work) {
        assert false;
      }
      tenants := tenants[t := TakenOut(tenants[t], item)];
      global := global.RemoveQueued(item.bytes, item.work);
      entries := entries[item.id := entries[item.id].(phase := PhaseNone)];
    }

    lemma OneOnHeap(item: Request)
      requires Agrees() && Waiting(tenants, item)
      ensures item in expiry.q && forall r :: r in expiry.q && r.id == item.id ==> r == item
      ensures forall i, j :: 0 <= i < j < |expiry.q| ==> expiry.q[i] != expiry.q[j]
    {
      hide CountersOk, Heap.Ordered;
    }

    /** Removing one copy from a list without repetition removes the entry. */
    static lemma Unlisted(before: seq<Request>, after: seq<Request>, item: Request)
      requires item in before && multiset(after) == multiset(before) - multiset{item}
      requires forall i, j :: 0 <= i < j < |before| ==> before[i] != before[j]
      ensures forall x :: x in after <==> x in before && x != item
    {
      CountOne(before, item);
      forall x ensures x in after <==> x in before && x != item {
        assert x in after <==> x in multiset(after);
        assert x in before <==> x in multiset(before);
      }
    }

    static lemma {:induction false} CountOne(q: seq<Request>, item: Request)
      requires item in q && forall i, j :: 0 <= i < j < |q| ==> q[i] != q[j]
      ensures multiset(q)[item] == 1
    {
      assert q == [q[0]] + q[1..];
      if q[0] == item {
        assert item !in q[1..];
      } else {
        CountOne(q[1..], item);
      }
    }

    /** Every removal ends by forgetting the entry and answering its client. */
    method Forget(item: Request, reason: Reason, decision: Decision)
      requires Valid() && Queued(Abs(), item) && DropAllowed(Abs(), item, reason)
      requires decision == DropDecision(item.id in canceled, item, reason)
      modifies this`tenants, this`global, this`entries, this`results, this`history, expiry
      ensures Valid() && history == old(history) + [Drop(item, reason)]
      ensures item.tenant < |old(tenants)|
      ensures tenants == old(tenants)[item.tenant := TakenOut(old(tenants)[item.tenant], item)]
      ensures 0 < old(global.queuedCount) && global.queuedCount == old(global.queuedCount) - 1
      ensures results == old(results)[item.id := decision] && item.id !in old(results)
    {
      hide Sound, CountersOk, EntriesOk, HeapOk, Legal, Run, Inv, Without, TakenOut, Waiting, Leave, Enabled, Apply,
        Queued, DropDecision;
      Invariant();
      ghost var s := Abs();
      ghost var before := tenants;
      ghost var had := entries;
      UnresolvedEntry(cfg, s, item);
      QueuedTenant(s, item);
      TakenOutWaiting(before, item);
      TakenOutIsLeave(s, before, item);
      RemovedOne(cfg, before, global, inflight, item);
      RemoveQueued(item);
      EntriesDropped(before, inflight, had, causes, item, tenants);
      entries := entries - {item.id};
      assert entries == had - {item.id};
      results := results[item.id := decision];
      DropEffect(cfg, s, item, reason);
      Note(Drop(item, reason));
    }

    static lemma DropEffect(c: ValidatedConfig, s: State, item: Request, reason: Reason)
      requires Queued(s, item) && DropAllowed(s, item, reason)
      ensures Enabled(c, s, Drop(item, reason))
      ensures Apply(c, s, Drop(item, reason))
              == s.(tenants := Leave(s, item).tenants,
                    results := s.results[item.id := DropDecision(item.id in s.canceled, item, reason)])
    {
    }

    static lemma QueuedTenant(s: State, item: Request)
      requires Queued(s, item)
      ensures item.tenant < |s.tenants|
    {
    }

    /** Expiry and drain look at the client once more before they answer it. */
    method DropEntry(item: Request, reason: Reason) returns (ghost seen: seq<Event>)
      requires Valid() && Queued(Abs(), item) && DropAllowed(Abs(), item, reason)
      modifies this`tenants, this`global, this`entries, this`results, this`canceled, this`history, expiry
      ensures Valid() && history == old(history) + seen + [Drop(item, reason)]
      ensures Reads(seen, item.id) && (reason == OnCommand || reason == OnContext ==> seen == [])
      ensures item.tenant < |old(tenants)|
      ensures tenants == old(tenants)[item.tenant := TakenOut(old(tenants)[item.tenant], item)]
      ensures 0 < old(global.queuedCount) && global.queuedCount == old(global.queuedCount) - 1
      ensures Dropped(history) == Dropped(old(history)) + [item]
      ensures old(canceled) <= canceled <= old(canceled) + {item.id}
      ensures item.id !in old(results)
      ensures reason == OnCommand || reason == OnContext ==> results == old(results)[item.id := CanceledQueued]
      ensures reason == OnDeadline ==>
        results == old(results)[item.id :=
          if item.id in canceled || item.clientDeadline then CanceledQueued else QueueExpired]
      ensures reason == OnDrain ==>
        results == old(results)[item.id := if item.id in canceled then CanceledQueued else Shutdown]
    {
      hide Valid, Without, TakenOut;
      seen := [];
      var gone := false;
      var decision := CanceledQueued;
      if reason == OnDeadline {
        gone, seen := ClientErr(item.id);
        decision := if gone || item.clientDeadline then CanceledQueued else QueueExpired;
      } else if reason == OnDrain {
        gone, seen := ClientErr(item.id);
        decision := if gone then CanceledQueued else Shutdown;
      }
      ghost var before := history;
      Forget(item, reason, decision);
      DroppedSnoc(before, Drop(item, reason));
    }

    /** A removal on a deadline or a departure is part of a pump. */
    static lemma PumpedDrop(before: seq<Event>, seen: seq<Event>, item: Request, reason: Reason)
      requires Reads(seen, item.id) && (reason == OnContext || reason == OnDeadline)
      ensures OnlyPumped(before, before + seen + [Drop(item, reason)])
    {
    }

    static lemma UnresolvedEntry(c: ValidatedConfig, s: State, item: Request)
      requires Inv(c, s) && Queued(s, item)
      ensures item.id !in s.results
    {
      hide Shape, Limits;
    }

    // -------------------------------------------------------------------
    // Expiry
    // -------------------------------------------------------------------

    /**
     * Removes exactly the queued entries whose deadline has passed, earliest
     * deadline first, and keeps every queue's order among the rest.
     */
    method ExpireReady(reading: int)
      requires Valid() && reading == now
      modifies this`tenants, this`global, this`entries, this`results, this`canceled, this`history, expiry
      ensures Valid() && OnlyPumped(old(history), history)
      ensures |tenants| == |old(tenants)|
      ensures forall t :: 0 <= t < |tenants| ==> tenants[t].queue == Surviving(old(tenants)[t].queue, reading)
      ensures Dropped(old(history)) <= Dropped(history)
      ensures var gone := Dropped(history)[|Dropped(old(history))|..];
        && InDeadlineOrder(gone) && (forall r :: r in gone ==> r.deadline <= reading)
        && AnsweredLate(gone, results, canceled) && OnlyAnswers(old(results), results, gone)
      ensures forall r :: Queued(Abs(), r) ==> r.deadline > reading
    {
      hide Sound, CountersOk, EntriesOk, Legal, Run, Inv, Without, TakenOut, Surviving, Dropped, OnlyPumped,
        AnsweredLate, OnlyAnswers;
      NobodyLate(results, canceled);
      OnlyPumpedRefl(history);
      ghost var gone: seq<Request> := [];
      while |expiry.q| > 0
        invariant Valid() && OnlyPumped(old(history), history)
        invariant |tenants| == |old(tenants)|
        invariant forall t :: 0 <= t < |tenants| ==>
          Surviving(tenants[t].queue, reading) == Surviving(old(tenants)[t].queue, reading)
        invariant Dropped(history) == Dropped(old(history)) + gone
        invariant ExpiredSoFar(gone, tenants, reading)
        invariant AnsweredLate(gone, results, canceled) && OnlyAnswers(old(results), results, gone)
        decreases global.queuedCount
      {
        var item := expiry.q[0];
        HeapHead();
        if item.deadline > reading {
          break;
        }
        Invariant();
        ghost var before := tenants;
        ghost var mid := history;
        ghost var answered, away := results, canceled;
        ghost var seen := DropEntry(item, OnDeadline);
        AnsweredLateNext(gone, answered, away, item, canceled);
        OnlyAnswersNext(old(results), answered, gone, item, results[item.id]);
        PumpedDrop(mid, seen, item, OnDeadline);
        OnlyPumpedJoin(old(history), mid, history);
        TakenOutWaiting(before, item);
        TakenOutSurvives(before, item, reading);
        ExpiredNext(gone, before, reading, item, tenants);
        gone := gone + [item];
      }
      NothingDue(reading);
      assert Dropped(history)[|Dropped(old(history))|..] == gone;
    }

    lemma HeapHead()
      requires Valid() && |expiry.q| > 0
      ensures var item := expiry.q[0];
        Waiting(tenants, item) && Queued(Abs(), item) && forall r :: Waiting(tenants, r) ==> !Heap.Less(r, item)
    {
      hide Sound, CountersOk, EntriesOk, Legal, Run, Heap.Less, Heap.Ordered;
      var item := expiry.q[0];
      assert item in expiry.q;
      WaitingIsQueued(Abs(), tenants);
      forall r | Waiting(tenants, r) ensures !Heap.Less(r, item) {
        assert r in expiry.q;
        var k :| 0 <= k < |expiry.q| && expiry.q[k] == r;
        Heap.HeadIsFirst(expiry.q, k);
      }
    }

    lemma NothingDue(reading: int)
      requires Valid() && (|expiry.q| == 0 || expiry.q[0].deadline > reading)
      ensures forall r :: Queued(Abs(), r) ==> r.deadline > reading
      ensures forall t :: 0 <= t < |tenants| ==> Surviving(tenants[t].queue, reading) == tenants[t].queue
    {
      hide Sound, CountersOk, EntriesOk, Legal, Run, Inv, Surviving;
      Invariant();
      forall r | Waiting(tenants, r) ensures r.deadline > reading {
        assert r in expiry.q;
        HeapHead();
      }
      forall t | 0 <= t < |tenants| ensures Surviving(tenants[t].queue, reading) == tenants[t].queue {
        InOwnQueue(t);
        AllSurvive(tenants[t].queue, reading);
      }
    }

    lemma InOwnQueue(t: nat)
      requires Valid() && t < |tenants|
      ensures forall r :: r in tenants[t].queue ==> r.tenant == t && Waiting(tenants, r) && RequestOk(cfg, r)
    {
      hide Agrees, Legal, Run, Sound, Limits, Identity;
      InitialInv(cfg);
      RunInv(cfg, Initial(cfg), history);
      assert QueueOk(cfg, t, Abs().tenants[t].queue, sequence);
    }

    static lemma TakenOutSurvives(ts: seq<TenantState>, item: Request, now: int)
      requires item.tenant < |ts| && item.deadline <= now
      ensures var after := ts[item.tenant := TakenOut(ts[item.tenant], item)];
        forall t :: 0 <= t < |ts| ==> Surviving(after[t].queue, now) == Surviving(ts[t].queue, now)
    {
      hide Without, Surviving;
      SurvivingWithout(ts[item.tenant].queue, item, now);
    }

    // -------------------------------------------------------------------
    // Admission
    // -------------------------------------------------------------------

    /**
     * Answers a submission at once or queues it. The answer is the first failing
     * check, in the order drain, cancellation, tenant, deadline, tenant limits,
     * global limits; a refusal changes no counter.
     */
    method Admit(sub: Submission) returns (refusal: Option<Decision>, ghost seen: seq<Event>)
      requires Valid() && WellFormed(cfg, sub) && !Known(Abs(), sub.id)
      modifies this`tenants, this`global, this`entries, this`results, this`canceled, this`sequence, this`history, expiry
      ensures Valid() && history == old(history) + seen + [Event.Admit(sub)] && Reads(seen, sub.id)
      ensures old(canceled) <= canceled <= old(canceled) + {sub.id}
      ensures refusal == AdmitRefusal(cfg, old(Abs()).(canceled := canceled), sub)
      ensures refusal.Some? ==> tenants == old(tenants) && global == old(global) && entries == old(entries)
                                && results == old(results)[sub.id := refusal.value]
      ensures refusal.None? ==> accepting && results == old(results) && sequence == old(sequence) + 1
      ensures refusal.None? ==>
        var t := cfg.tenantByID[sub.tenantID];
        t < |tenants| == |old(tenants)|
        && tenants[t].queue == old(tenants)[t].queue
             + [Request(sub.id, t, sub.bytes, sub.work, sub.deadline, sub.clientDeadline, sequence)]
        && forall i :: 0 <= i < |tenants| && i != t ==> tenants[i] == old(tenants)[i]
    {
      hide Valid, WellFormed, Known, AdmitRefusal, PlainAll, OnlyPumped, Dropped;
      seen := [];
      Sizes();
      EarlyRefusals(cfg, Abs(), sub);
      if !accepting {
        refusal := Some(Draining);
        Refuse(sub, Draining);
        return;
      }
      var gone;
      gone, seen := ClientErr(sub.id);
      KnownUnmoved(old(Abs()), Abs(), sub.id);
      EarlyRefusals(cfg, Abs(), sub);
      if gone {
        refusal := Some(CanceledQueued);
        Refuse(sub, CanceledQueued);
        return;
      }
      if sub.tenantID !in cfg.tenantByID {
        refusal := Some(Invalid);
        Refuse(sub, Invalid);
        return;
      }
      Resolvable(sub);
      var t := cfg.tenantByID[sub.tenantID];
      if sub.deadline <= now {
        ghost var again;
        gone, again := ClientErr(sub.id);
        seen := seen + again;
        KnownUnmoved(old(Abs()), Abs(), sub.id);
        EarlyRefusals(cfg, Abs(), sub);
        var late := if gone || sub.clientDeadline then CanceledQueued else QueueExpired;
        refusal := Some(late);
        Refuse(sub, late);
        return;
      }
      refusal := AdmitWithin(sub, t);
    }

    /** The checks before the limits, in their order. */
    static lemma EarlyRefusals(c: ValidatedConfig, s: State, sub: Submission)
      requires |s.tenants| == |c.tenants|
      ensures var refusal := AdmitRefusal(c, s, sub);
        if !s.accepting then refusal == Some(Draining)
        else if sub.id in s.canceled then refusal == Some(CanceledQueued)
        else if sub.tenantID !in c.tenantByID then refusal == Some(Invalid)
        else c.tenantByID[sub.tenantID] < |s.tenants| && sub.deadline <= s.now ==>
          refusal == Some(if sub.clientDeadline then CanceledQueued else QueueExpired)
    {
      hide QueueLoad, TotalLoad, QueueLimitFailure;
    }

    /** The limits of the tenant's queue, then those of all queues together. */
    method AdmitWithin(sub: Submission, t: nat) returns (refusal: Option<Decision>)
      requires Valid() && WellFormed(cfg, sub) && !Known(Abs(), sub.id)
      requires accepting && sub.id !in canceled && sub.deadline > now
      requires sub.tenantID in cfg.tenantByID && t == cfg.tenantByID[sub.tenantID]
      modifies this`tenants, this`global, this`entries, this`results, this`sequence, this`history, expiry
      ensures Valid() && history == old(history) + [Event.Admit(sub)]
      ensures refusal == AdmitRefusal(cfg, old(Abs()), sub)
      ensures refusal.Some? ==> tenants == old(tenants) && global == old(global) && entries == old(entries)
                                && results == old(results)[sub.id := refusal.value]
      ensures refusal.None? ==>
        && results == old(results) && sequence == old(sequence) + 1 && t < |old(tenants)|
        && tenants == old(tenants)[t := PutIn(old(tenants)[t],
                        Request(sub.id, t, sub.bytes, sub.work, sub.deadline, sub.clientDeadline, sequence))]
    {
      hide Sound, CountersOk, EntriesOk, HeapOk, Legal, Run, Inv, Apply, Enabled, Initial, Known, QueueLimitFailure,
        QueueLoad, TotalLoad, PlainAll, PutIn;
      Resolvable(sub);
      CountedQueues(t);
      var own := QueueLimitFailure(QueuedLoad(tenants[t].counters), sub.bytes, sub.work, tenants[t].config.queue);
      if own.Some? {
        refusal := Some(TenantRejected(own.value));
        Refuse(sub, TenantRejected(own.value));
        return;
      }
      var all := QueueLimitFailure(QueuedLoad(global), sub.bytes, sub.work, cfg.globalQueue);
      if all.Some? {
        refusal := Some(GlobalRejected(all.value));
        Refuse(sub, GlobalRejected(all.value));
        return;
      }
      refusal := None;
      Queue(sub, t);
    }

    lemma CountedQueues(t: nat)
      requires Valid() && t < |tenants|
      ensures |Abs().tenants| == |tenants| == |cfg.tenants| && tenants[t].config == cfg.tenants[t]
      ensures QueuedLoad(tenants[t].counters) == QueueLoad(Abs().tenants[t].queue)
      ensures QueuedLoad(global) == TotalLoad(Abs().tenants)
    {
      hide Sound, EntriesOk, HeapOk, Legal, Run, QueueLoad, TotalLoad, TenantLoad;
    }

    static lemma KnownUnmoved(s: State, after: State, id: nat)
      requires after.tenants == s.tenants && after.results == s.results
      ensures Known(after, id) == Known(s, id)
    {
      assert forall r :: Queued(after, r) == Queued(s, r);
    }

    lemma Resolvable(sub: Submission)
      requires Valid() && sub.tenantID in cfg.tenantByID
      ensures cfg.tenantByID[sub.tenantID] < |tenants| == |cfg.tenants|
    {
    }

    method Refuse(sub: Submission, decision: Decision)
      requires Valid() && WellFormed(cfg, sub) && !Known(Abs(), sub.id)
      requires AdmitRefusal(cfg, Abs(), sub) == Some(decision)
      modifies this`results, this`history
      ensures Valid() && history == old(history) + [Event.Admit(sub)]
      ensures results == old(results)[sub.id := decision] && sub.id !in old(results)
    {
      hide Sound, CountersOk, EntriesOk, HeapOk, Legal, Run, Apply, Enabled, Initial, AdmitRefusal;
      AdmitEffect(cfg, Abs(), sub);
      results := results[sub.id := decision];
      Note(Event.Admit(sub));
    }

    static lemma AdmitEffect(c: ValidatedConfig, s: State, sub: Submission)
      requires WellFormed(c, sub) && !Known(s, sub.id)
      ensures Enabled(c, s, Event.Admit(sub)) && sub.id !in s.results
      ensures Apply(c, s, Event.Admit(sub)) ==
              (var refusal := AdmitRefusal(c, s, sub);
               if refusal.Some? then s.(results := s.results[sub.id := refusal.value]) else Enqueue(c, s, sub))
    {
      hide AdmitRefusal, Enqueue;
    }

    static lemma EnqueueEffect(c: ValidatedConfig, s: State, sub: Submission, r: Request)
      requires |s.tenants| == |c.tenants|
      requires AdmitRefusal(c, s, sub).None?
      requires r == Request(sub.id, c.tenantByID[sub.tenantID], sub.bytes, sub.work, sub.deadline, sub.clientDeadline,
        s.sequence + 1)
      ensures r.tenant < |s.tenants| == |c.tenants|
      ensures Enqueue(c, s, sub)
              == s.(sequence := r.sequence,
                    tenants := s.tenants[r.tenant := s.tenants[r.tenant].(queue := s.tenants[r.tenant].queue + [r])])
      ensures QueueLimitFailure(QueueLoad(s.tenants[r.tenant].queue), r.bytes, r.work, c.tenants[r.tenant].queue).None?
      ensures QueueLimitFailure(TotalLoad(s.tenants), r.bytes, r.work, c.globalQueue).None?
      ensures s.accepting
    {
      hide QueueLoad, TotalLoad, QueueLimitFailure;
    }

    /** The new entry's identifier is nowhere in the owner's records. */
    lemma Unseen(id: nat)
      requires Valid() && !Known(Abs(), id)
      ensures forall x :: Waiting(tenants, x) || x in inflight ==> x.id != id
      ensures forall x :: x in expiry.q ==> x.id != id
    {
      hide Sound, CountersOk, EntriesOk, Legal, Run, Shape, Limits;
      InitialInv(cfg);
      RunInv(cfg, Initial(cfg), history);
      WaitingIsQueued(Abs(), tenants);
    }

    method Queue(sub: Submission, t: nat)
      requires Valid() && WellFormed(cfg, sub) && !Known(Abs(), sub.id)
      requires AdmitRefusal(cfg, Abs(), sub).None? && t == cfg.tenantByID[sub.tenantID]
      modifies this`tenants, this`global, this`entries, this`sequence, this`history, expiry
      ensures Valid() && history == old(history) + [Event.Admit(sub)]
      ensures accepting && sequence == old(sequence) + 1 && t < |old(tenants)| == |cfg.tenants|
      ensures tenants == old(tenants)[t := PutIn(old(tenants)[t],
                Request(sub.id, t, sub.bytes, sub.work, sub.deadline, sub.clientDeadline, sequence))]
    {
      hide Sound, CountersOk, EntriesOk, HeapOk, Legal, Run, Inv, Apply, Enabled, Initial, Known, QueueLimitFailure,
        Enqueue, AdmitRefusal, Waiting, PlainAll, PutIn, QueueLoad, TotalLoad;
      ghost var s := Abs();
      var item := Request(sub.id, t, sub.bytes, sub.work, sub.deadline, sub.clientDeadline, sequence + 1);
      AdmitEffect(cfg, s, sub);
      Invariant();
      PlainAllSize(tenants);
      EnqueueEffect(cfg, s, sub, item);
      PlainAllAt(tenants, t);
      Enter(item);
      sequence := sequence + 1;
      Note(Event.Admit(sub));
    }

    static lemma PlainAllSize(ts: seq<TenantState>)
      ensures |PlainAll(ts)| == |ts|
    {
    }

    /** Puts an entry at the back of its queue, on the heap and into the counters. */
    method Enter(item: Request)
      requires Valid() && !Known(Abs(), item.id) && item.tenant < |tenants| == |cfg.tenants|
      requires QueueLimitFailure(QueueLoad(tenants[item.tenant].queue), item.bytes, item.work,
        cfg.tenants[item.tenant].queue).None?
      requires QueueLimitFailure(TotalLoad(PlainAll(tenants)), item.bytes, item.work, cfg.globalQueue).None?
      modifies this`tenants, this`global, this`entries, expiry
      ensures Agrees()
      ensures tenants == old(tenants)[item.tenant := PutIn(old(tenants)[item.tenant], item)]
      ensures PlainAll(tenants) == PlainAll(old(tenants))[item.tenant :=
                Plain(old(tenants)[item.tenant]).(queue := old(tenants)[item.tenant].queue + [item])]
    {
      hide Sound, CountersOk, EntriesOk, HeapOk, Legal, Run, Inv, Initial, Known, QueueLimitFailure, Waiting, PutIn,
        PlainAll;
      ghost var before := tenants;
      ghost var heap := expiry.q;
      Unseen(item.id);
      CountersPutIn(cfg, before, global, inflight, item);
      PutInWaiting(before, item);
      EntriesAdmitted(before, inflight, entries, causes, item, before[item.tenant := PutIn(before[item.tenant], item)]);
      tenants := tenants[item.tenant := PutIn(tenants[item.tenant], item)];
      global := global.AddQueued(item.bytes, item.work);
      entries := entries[item.id := Record(item, EntryQueued, PhaseQueued, None)];
      expiry.Push(item);
      HeapPushed(before, heap, item);
    }

    lemma HeapPushed(before: seq<TenantState>, heap: seq<Request>, item: Request)
      requires HeapOk(before, heap) && multiset(expiry.q) == multiset(heap) + multiset{item}
      requires forall x :: Waiting(tenants, x) <==> Waiting(before, x) || x == item
      ensures HeapOk(tenants, expiry.q)
    {
      hide Waiting;
      forall r ensures r in expiry.q <==> Waiting(tenants, r) {
        assert r in expiry.q <==> r in multiset(expiry.q);
        assert r in heap <==> r in multiset(heap);
      }
    }

    // -------------------------------------------------------------------
    // Cancellation, completion and drain
    // -------------------------------------------------------------------

    lemma EntryPlace(id: nat)
      requires Valid() && id in entries
      ensures var e := entries[id];
        && e.request.id == id
        && (e.state == EntryQueued ==> Queued(Abs(), e.request))
        && (e.state == EntryInflight ==>
           e.request in inflight && e.phase == PhaseInflight && e.cause == CauseOf(causes, id))
    {
      hide Sound, CountersOk, HeapOk, Legal, Run;
      WaitingIsQueued(Abs(), tenants);
    }

    /** A queued entry is removed and answered; an in-flight one is signaled at most once. */
    method CancelEntry(id: nat) returns (r: CancelResult, ghost effect: Option<Event>)
      requires Valid()
      modifies this`tenants, this`global, this`entries, this`results, this`causes, this`canceled, this`history, expiry
      ensures Valid() && history == old(history) + Steps(effect)
      ensures effect == (if id !in old(entries) then None
                         else if old(entries)[id].state == EntryQueued then
                           Some(Drop(old(entries)[id].request, OnCommand))
                         else if old(entries)[id].cause.Some? then None
                         else Some(Signal(old(entries)[id].request, ByClient)))
      ensures r == (if id !in old(entries) then CancelAlreadyTerminal
                    else if old(entries)[id].state == EntryQueued then CancelApplied
                    else if old(entries)[id].cause.Some? then CancelAlreadyRequested else CancelApplied)
      ensures id in old(entries) && old(entries)[id].state == EntryQueued ==>
        results == old(results)[id := CanceledQueued] && causes == old(causes)
      ensures id in old(entries) && old(entries)[id].state == EntryInflight ==>
        results == old(results) && causes == (if id in old(causes) then old(causes) else old(causes)[id := ByClient])
      ensures id !in old(entries) ==> history == old(history) && Abs() == old(Abs())
    {
      hide Sound, CountersOk, EntriesOk, HeapOk, Legal, Run, Queued, TakenOut;
      effect := None;
      if id !in entries {
        return CancelAlreadyTerminal, None;
      }
      EntryPlace(id);
      var item := entries[id];
      if item.state == EntryQueued {
        ghost var seen := DropEntry(item.request, OnCommand);
        return CancelApplied, Some(Drop(item.request, OnCommand));
      }
      if item.cause != None {
        return CancelAlreadyRequested, None;
      }
      SetCause(item.request, ByClient);
      r, effect := CancelApplied, Some(Signal(item.request, ByClient));
    }

    /** Records who ended an in-flight request, once. */
    method SetCause(item: Request, cause: Cause)
      requires Valid() && item in inflight && item.id !in causes && (cause == ByShutdown ==> !accepting)
      modifies this`entries, this`causes, this`history
      ensures Valid() && history == old(history) + [Signal(item, cause)]
      ensures causes == old(causes)[item.id := cause]
    {
      hide Sound, CountersOk, EntriesOk, HeapOk, Legal, Run, Initial;
      EntriesSignaled(tenants, inflight, entries, causes, item, cause);
      entries := entries[item.id := entries[item.id].(cause := Some(cause))];
      causes := causes[item.id := cause];
      Note(Signal(item, cause));
    }

    /** Releases in-flight accounting; a second call for the same entry releases nothing. */
    method FinishEntry(id: nat, serving: Serving)
      returns (r: TerminalResult, ghost seen: seq<Event>, ghost effect: Option<Event>)
      requires Valid()
      modifies this`tenants, this`global, this`entries, this`inflight, this`causes, this`released, this`canceled,
        this`history
      ensures Valid() && history == old(history) + seen + Steps(effect) && Reads(seen, id)
      ensures r.accountingReleased <==> id in old(entries) && old(entries)[id].state == EntryInflight
      ensures effect == (if r.accountingReleased then Some(Release(old(entries)[id].request, serving)) else None)
      ensures r.accountingReleased ==>
        && NamedOutcome(causes, id, serving, r.outcome)
        && causes == (if id !in old(causes) && id in canceled then old(causes)[id := ByClient] else old(causes))
        && inflight == Without(old(inflight), old(entries)[id].request) && id !in entries
        && released == old(released)[id := r.outcome]
      ensures !r.accountingReleased ==> r.outcome == TerminalInternalFailure && Abs() == old(Abs())
    {
      hide Valid, Queued, Without;
      if id !in entries || entries[id].state != EntryInflight || entries[id].phase != PhaseInflight {
        if id in entries {
          EntryPlace(id);
        }
        return TerminalResult(TerminalInternalFailure, false), [], None;
      }
      EntryPlace(id);
      var item := entries[id].request;
      var cause;
      cause, seen := ReadCause(item);
      var outcome := TerminalOutcome(cause, serving);
      ReturnSlot(item, serving, outcome);
      r, effect := TerminalResult(outcome, true), Some(Release(item, serving));
    }

    /** The recorded cause, or the client's own departure if it has gone away by now. */
    method ReadCause(item: Request) returns (cause: Option<Cause>, ghost seen: seq<Event>)
      requires Valid() && item in inflight
      modifies this`canceled, this`history
      ensures Valid() && history == old(history) + seen && Reads(seen, item.id)
      ensures cause == CauseAtFinish(Abs(), item)
    {
      hide Valid;
      CauseRecorded(item);
      seen := [];
      cause := entries[item.id].cause;
      assert history == old(history) + [];
      if cause == None {
        var gone;
        gone, seen := ClientErr(item.id);
        cause := if gone then Some(ByClient) else None;
      }
    }

    method ReturnSlot(item: Request, serving: Serving, outcome: Terminal)
      requires Valid() && item in inflight && outcome == TerminalOutcome(CauseAtFinish(Abs(), item), serving)
      modifies this`tenants, this`global, this`entries, this`inflight, this`causes, this`released, this`history
      ensures Valid() && history == old(history) + [Release(item, serving)]
      ensures inflight == Without(old(inflight), item) && entries == old(entries) - {item.id}
      ensures released == old(released)[item.id := outcome] && causes == CausesAtFinish(old(Abs()), item)
      ensures PlainAll(tenants) == PlainAll(old(tenants))
    {
      hide Sound, CountersOk, EntriesOk, HeapOk, Legal, Run, Initial, Without, TerminalOutcome, PlainAll, Inv, Waiting,
        Enabled, Apply, CausesAtFinish, Refunded, CauseAtFinish;
      ghost var s := Abs();
      FlyingTenant(item);
      CountersRefunded(cfg, tenants, global, inflight, item);
      RefundKeeps(s, item);
      ReleaseEffect(cfg, s, item, serving);
      var t := item.tenant;
      if tenants[t].counters.InflightUnderflows(item.work) || global.InflightUnderflows(item.work) {
        assert false;
      }
      tenants := tenants[t := Refunded(tenants[t], item.work)];
      global := global.RemoveInflight(item.work);
      inflight := Without(inflight, item);
      entries := entries - {item.id};
      causes := CausesAtFinish(s, item);
      released := released[item.id := outcome];
      Note(Release(item, serving));
    }

    static lemma ReleaseEffect(c: ValidatedConfig, s: State, item: Request, serving: Serving)
      requires item in s.inflight
      ensures Enabled(c, s, Release(item, serving))
      ensures Apply(c, s, Release(item, serving))
              == s.(inflight := Without(s.inflight, item), causes := CausesAtFinish(s, item),
                    released := s.released[item.id := TerminalOutcome(CauseAtFinish(s, item), serving)])
    {
    }

    /** Table and heap stay right when one in-flight entry is forgotten. */
    lemma RefundKeeps(s: State, item: Request)
      requires Valid() && s == Abs() && item in inflight && item.tenant < |tenants|
      ensures EntriesOk(tenants[item.tenant := Refunded(tenants[item.tenant], item.work)], Without(inflight, item),
                        entries - {item.id}, CausesAtFinish(s, item))
      ensures HeapOk(tenants[item.tenant := Refunded(tenants[item.tenant], item.work)], expiry.q)
    {
      hide Sound, CountersOk, EntriesOk, HeapOk, Legal, Run, Initial, Without, Inv, Waiting, Refunded;
      var after := tenants[item.tenant := Refunded(tenants[item.tenant], item.work)];
      Invariant();
      RefundWaiting(tenants, item);
      LeftFlying(cfg, s, item);
      EntriesReleased(tenants, inflight, entries, causes, item, Without(inflight, item), CausesAtFinish(s, item));
      EntriesMoved(tenants, Without(inflight, item), entries - {item.id}, CausesAtFinish(s, item), after);
      HeapMoved(tenants, after, expiry.q);
    }

    lemma FlyingTenant(item: Request)
      requires Valid() && item in inflight
      ensures item.tenant < |tenants| == |cfg.tenants|
    {
      hide Agrees, Legal, Run, Sound, Limits, Identity;
      InitialInv(cfg);
      RunInv(cfg, Initial(cfg), history);
      assert RequestOk(cfg, item);
    }

    static lemma LeftFlying(c: ValidatedConfig, s: State, item: Request)
      requires Inv(c, s) && item in s.inflight
      ensures forall x :: x in Without(s.inflight, item) <==> x in s.inflight && x != item
    {
      hide Shape, Limits, Without;
      WithoutMembers(s.inflight, item);
    }

    static lemma RefundWaiting(ts: seq<TenantState>, item: Request)
      requires item.tenant < |ts|
      ensures forall x :: Waiting(ts[item.tenant := Refunded(ts[item.tenant], item.work)], x) <==> Waiting(ts, x)
    {
    }

    static lemma HeapMoved(before: seq<TenantState>, after: seq<TenantState>, heap: seq<Request>)
      requires HeapOk(before, heap) && forall x :: Waiting(after, x) <==> Waiting(before, x)
      ensures HeapOk(after, heap)
    {
      hide Waiting;
    }

    method Stop()
      requires Valid()
      modifies this`accepting, this`history
      ensures Valid() && !accepting && history == old(history) + [StopAccepting]
    {
      hide Sound, CountersOk, EntriesOk, HeapOk, Legal, Run, Initial, Enabled, Apply;
      ReadingEffect(cfg, Abs(), now, 0);
      accepting := false;
      Note(StopAccepting);
    }

    /**
     * Stops admission and answers every queued client, without touching permits.
     * The counts reported are those of the answers given and the permits held.
     */
    method BeginDrain() returns (shutdown: nat, active: uint64, ghost rest: seq<Event>)
      requires Valid()
      modifies this`tenants, this`global, this`entries, this`results, this`canceled, this`accepting, this`history,
        expiry
      ensures Valid() && history == old(history) + [StopAccepting] + rest && OnlyInternal(rest) && !accepting
      ensures TotalLoad(Abs().tenants).count == 0
      ensures Dropped(old(history)) <= Dropped(history)
      ensures var gone := Dropped(history)[|Dropped(old(history))|..];
        && gone == AllQueues(old(tenants)) && shutdown == ShutdownCount(gone, results)
        && AnsweredByDrain(gone, results, canceled) && OnlyAnswers(old(results), results, gone)
      ensures active == |inflight|
    {
      hide Valid, Dropped, TotalLoad, AnsweredByDrain, ShutdownCount, AllQueues, OnlyAnswers;
      DroppedSnoc(history, StopAccepting);
      Stop();
      shutdown := 0;
      ghost var gone: seq<Request> := [];
      rest := [];
      NobodyAnswered(results, canceled);
      assert AllQueues(old(tenants)[..0]) == [] by { NoQueues(old(tenants)); }
      ghost var size := |tenants|;
      for tenant := 0 to |tenants|
        invariant Valid() && history == old(history) + [StopAccepting] + rest && !accepting && |tenants| == size
        invariant OnlyInternal(rest)
        invariant forall t :: 0 <= t < tenant ==> tenants[t].queue == []
        invariant Dropped(history) == Dropped(old(history)) + gone
        invariant shutdown == ShutdownCount(gone, results) && AnsweredByDrain(gone, results, canceled)
        invariant forall t :: tenant <= t < |tenants| ==> tenants[t] == old(tenants)[t]
        invariant gone == AllQueues(old(tenants)[..tenant]) && OnlyAnswers(old(results), results, gone)
      {
        ghost var more;
        shutdown, gone, more := DrainTenant(tenant, shutdown, gone, old(results));
        rest := rest + more;
        AllQueuesNext(old(tenants), tenant);
      }
      assert old(tenants)[..|tenants|] == old(tenants);
      PlainQueues();
      assert Dropped(history)[|Dropped(old(history))|..] == gone;
      active := global.inflightCount;
      InflightCounted();
    }

    static lemma NobodyAnswered(results: map<nat, Decision>, canceled: set<nat>)
      ensures AnsweredByDrain([], results, canceled) && ShutdownCount([], results) == 0
        && OnlyAnswers(results, results, [])
    {
    }

    static lemma NoQueues(ts: seq<TenantState>)
      ensures AllQueues(ts[..0]) == []
    {
    }

    static lemma AllQueuesNext(ts: seq<TenantState>, t: nat)
      requires t < |ts|
      ensures AllQueues(ts[..t + 1]) == AllQueues(ts[..t]) + ts[t].queue
    {
      assert ts[..t + 1][..t] == ts[..t];
    }

    /** Empties one tenant's queue from the front. */
    method DrainTenant(tenant: nat, before: nat, ghost earlier: seq<Request>, ghost atStart: map<nat, Decision>)
      returns (shutdown: nat, ghost gone: seq<Request>, ghost rest: seq<Event>)
      requires Valid() && !accepting && tenant < |tenants|
      requires before == ShutdownCount(earlier, results) && AnsweredByDrain(earlier, results, canceled)
      requires OnlyAnswers(atStart, results, earlier)
      modifies this`tenants, this`global, this`entries, this`results, this`canceled, this`history, expiry
      ensures Valid() && history == old(history) + rest && OnlyInternal(rest) && |tenants| == |old(tenants)|
      ensures tenants[tenant].queue == []
      ensures forall t :: 0 <= t < |tenants| && t != tenant ==> tenants[t] == old(tenants)[t]
      ensures gone == earlier + old(tenants)[tenant].queue
      ensures Dropped(history) == Dropped(old(history)) + old(tenants)[tenant].queue
      ensures shutdown == ShutdownCount(gone, results) && AnsweredByDrain(gone, results, canceled)
      ensures OnlyAnswers(atStart, results, gone)
    {
      hide Valid, Dropped, AnsweredByDrain, ShutdownCount, Queued, TakenOut, OnlyAnswers;
      shutdown := before;
      gone, rest := earlier, [];
      while tenants[tenant].queue != []
        invariant Valid() && history == old(history) + rest && OnlyInternal(rest) && |tenants| == |old(tenants)|
        invariant forall t :: 0 <= t < |tenants| && t != tenant ==> tenants[t] == old(tenants)[t]
        invariant gone + tenants[tenant].queue == earlier + old(tenants)[tenant].queue
        invariant Dropped(history) + tenants[tenant].queue == Dropped(old(history)) + old(tenants)[tenant].queue
        invariant shutdown == ShutdownCount(gone, results) && AnsweredByDrain(gone, results, canceled)
        invariant OnlyAnswers(atStart, results, gone)
        decreases global.queuedCount
      {
        var item := tenants[tenant].queue[0];
        QueueHead(tenant);
        TakenOutHead(tenants[tenant]);
        ghost var answered, seen := results, canceled;
        ghost var reading := DropEntry(item, OnDrain);
        rest := rest + reading + [Drop(item, OnDrain)];
        AnsweredNext(gone, answered, seen, item, canceled);
        OnlyAnswersNext(atStart, answered, gone, item, results[item.id]);
        if results[item.id] == Shutdown {
          shutdown := shutdown + 1;
        }
        gone := gone + [item];
      }
    }

    static lemma TakenOutHead(t: TenantState)
      requires t.queue != []
      ensures TakenOut(t, t.queue[0]).queue == t.queue[1..] && t.queue == [t.queue[0]] + t.queue[1..]
    {
    }

    lemma QueueHead(t: nat)
      requires Valid() && t < |tenants| && tenants[t].queue != []
      ensures var item := tenants[t].queue[0];
        item.tenant == t && Queued(Abs(), item) && RequestOk(cfg, item)
    {
      hide Sound, Agrees, Legal, Run, RequestOk;
      InOwnQueue(t);
      WaitingIsQueued(Abs(), tenants);
      assert tenants[t].queue[0] in tenants[t].queue;
    }

    lemma PlainQueues()
      requires forall t :: 0 <= t < |tenants| ==> tenants[t].queue == []
      ensures TotalLoad(Abs().tenants).count == 0
    {
      hide TotalLoad;
      NothingQueued(PlainAll(tenants));
    }

    lemma InflightCounted()
      requires Valid()
      ensures global.inflightCount == |inflight| && global.queuedCount == TotalLoad(Abs().tenants).count
    {
      hide Sound, EntriesOk, HeapOk, Legal, Run, TotalLoad, TenantLoad, QueueLoad;
      QueueLoadCount(inflight);
    }

    /**
     * Ends the graceful phase: permits already attributed keep their cause, the others
     * get their client's if it was found gone and shutdown if not, and the count is of
     * the latter.
     */
    method ForceCancelInflight() returns (signaled: nat, ghost rest: seq<Event>)
      requires Valid()
      modifies this`tenants, this`global, this`entries, this`results, this`causes, this`canceled, this`accepting,
        this`history, expiry
      ensures Valid() && history == old(history) + Steps(if old(accepting) then Some(StopAccepting) else None) + rest
      ensures OnlyInternal(rest) && !accepting
      ensures old(accepting) ==> TotalLoad(Abs().tenants).count == 0
      ensures !old(accepting) ==> tenants == old(tenants)
      ensures inflight == old(inflight)
      ensures forall r :: r in inflight ==> Attributed(r, old(causes), causes, canceled)
      ensures forall id :: id in old(causes) ==> id in causes && causes[id] == old(causes)[id]
      ensures signaled == StillServed(inflight, old(causes), canceled)
    {
      hide Valid, TotalLoad, StillServed;
      rest := [];
      if accepting {
        var shutdown, active;
        shutdown, active, rest := BeginDrain();
      }
      signaled := 0;
      ghost var settled := tenants;
      NobodySignaled(old(causes), canceled);
      assert inflight[..0] == [];
      for i := 0 to |inflight|
        invariant Valid() && !accepting && tenants == settled && OnlyInternal(rest)
        invariant history == old(history) + Steps(if old(accepting) then Some(StopAccepting) else None) + rest
        invariant inflight == old(inflight)
        invariant forall k :: 0 <= k < i ==> Attributed(inflight[k], old(causes), causes, canceled)
        invariant forall k :: i <= k < |inflight| && inflight[k].id in causes ==> inflight[k].id in old(causes)
        invariant forall id :: id in old(causes) ==> id in causes && causes[id] == old(causes)[id]
        invariant signaled == StillServed(inflight[..i], old(causes), canceled)
      {
        var more;
        ghost var events;
        ghost var had, away := causes, canceled;
        more, events := SignalAt(i, old(causes));
        forall k | 0 <= k < i ensures Attributed(inflight[k], old(causes), causes, canceled) {
          AttributedStays(inflight[k], old(causes), had, causes, away, canceled, inflight[i].id);
        }
        rest := rest + events;
        signaled := signaled + more;
      }
      assert inflight[..|inflight|] == inflight;
    }

    static lemma NobodySignaled(before: map<nat, Cause>, canceled: set<nat>)
      ensures StillServed([], before, canceled) == 0
    {
    }

    /** Attributing one permit leaves the attribution of another alone. */
    static lemma AttributedStays(r: Request, before: map<nat, Cause>, had: map<nat, Cause>, after: map<nat, Cause>,
                                 away: set<nat>, now: set<nat>, id: nat)
      requires Attributed(r, before, had, away) && r.id != id && away <= now <= away + {id}
      requires r.id in had ==> r.id in after && after[r.id] == had[r.id]
      ensures Attributed(r, before, after, now)
    {
    }

    /** Attributes one permit, unless it already has a cause. */
    method SignalAt(i: nat, ghost earlier: map<nat, Cause>) returns (more: nat, ghost events: seq<Event>)
      requires Valid() && i < |inflight| && !accepting
      requires inflight[i].id in causes ==> inflight[i].id in earlier
      requires inflight[i].id in earlier ==> inflight[i].id in causes
      modifies this`entries, this`causes, this`canceled, this`history
      ensures Valid() && history == old(history) + events && OnlyInternal(events)
      ensures old(canceled) <= canceled <= old(canceled) + {inflight[i].id}
      ensures Attributed(inflight[i], old(causes), causes, canceled)
      ensures forall id :: id != inflight[i].id ==>
        (id in causes <==> id in old(causes)) && (id in causes ==> causes[id] == old(causes)[id])
      ensures forall k :: 0 <= k < |inflight| && k != i ==> inflight[k].id != inflight[i].id
      ensures StillServed(inflight[..i + 1], earlier, canceled)
        == StillServed(inflight[..i], earlier, old(canceled)) + more
    {
      hide Valid;
      var item := inflight[i];
      ghost var prefix := inflight[..i];
      assert inflight[..i + 1] == prefix + [item];
      assert (prefix + [item])[..|prefix|] == prefix;
      CauseRecorded(item);
      OthersDiffer(i);
      more, events := 0, [];
      if entries[item.id].cause == None {
        var gone;
        gone, events := ClientErr(item.id);
        StillServedSame(prefix, earlier, old(canceled), canceled, item.id);
        if gone {
          SetCause(item, ByClient);
          events := events + [Signal(item, ByClient)];
        } else {
          SetCause(item, ByShutdown);
          events := events + [Signal(item, ByShutdown)];
          more := 1;
        }
      }
    }

    lemma CauseRecorded(item: Request)
      requires Valid() && item in inflight
      ensures item.id in entries && entries[item.id].cause == CauseOf(causes, item.id)
    {
      hide Sound, CountersOk, HeapOk, Legal, Run, Waiting;
    }

    lemma OthersDiffer(i: nat)
      requires Valid() && i < |inflight|
      ensures forall k :: 0 <= k < |inflight| && k != i ==> inflight[k].id != inflight[i].id
      ensures forall r :: r in inflight[..i] ==> r.id != inflight[i].id
    {
      hide Sound, Agrees, Legal, Run, Shape, Limits, UniqueQueued, Unresolved, Permits;
      InitialInv(cfg);
      RunInv(cfg, Initial(cfg), history);
    }

    /** Announces the end of drain once, when nothing is queued or in flight. */
    method NotifyDrained()
      requires Valid()
      modifies this`drainNotified, this`history
      ensures Valid() && (history == old(history) || history == old(history) + [CloseDrained])
      ensures drainNotified == (old(drainNotified) || IsDrained(Abs()))
    {
      hide Sound, CountersOk, EntriesOk, HeapOk, Legal, Run, TotalLoad, Initial;
      InflightCounted();
      if accepting || !(global.queuedCount == 0 && global.inflightCount == 0) || drainNotified {
        return;
      }
      assert inflight == [];
      drainNotified := true;
      Note(CloseDrained);
    }

    // -------------------------------------------------------------------
    // The pump, one effect at a time
    // -------------------------------------------------------------------

    ghost predicate Pumping()
      reads this, expiry
    {
      Valid() && accepting && !GlobalFull(cfg, Abs()) && cursor < |tenants|
    }

    lemma FullIsCounted()
      requires Valid()
      ensures GlobalFull(cfg, Abs()) <==>
              global.inflightCount == cfg.globalInflight.count || global.inflightWork == cfg.globalInflight.work
    {
      hide Sound, EntriesOk, HeapOk, Legal, Run, TotalLoad, TenantLoad, QueueLoad;
    }

    /** The tenant at the cursor has nothing queued: its credit lapses and the cursor moves on. */
    method SkipTenant()
      requires Pumping() && tenants[cursor].queue == []
      modifies this`tenants, this`cursor, this`history
      ensures Pumping() && history == old(history) + [Skip(old(cursor))]
      ensures tenants == old(tenants)[old(cursor) := old(tenants)[old(cursor)].(deficit := 0, visitOpen := false)]
      ensures cursor == NextPosition(old(cursor), |tenants|)
    {
      hide Sound, CountersOk, EntriesOk, HeapOk, Legal, Run, Inv, Initial, Waiting, QueueLoad, TotalLoad, TenantLoad,
        PlainAll;
      ghost var s := Abs();
      Invariant();
      PlainAllSize(tenants);
      PlainAllAt(tenants, cursor);
      Retune(cursor, 0, false);
      cursor := NextPosition(cursor, |tenants|);
      assert Apply(cfg, s, Skip(s.cursor)) == Abs();
      Note(Skip(s.cursor));
    }

    /** Sets one tenant's credit and visit flag. */
    method Retune(t: nat, deficit: uint64, open: bool)
      requires Agrees() && t < |tenants|
      modifies this`tenants
      ensures Agrees()
      ensures tenants == old(tenants)[t := old(tenants)[t].(deficit := deficit, visitOpen := open)]
      ensures PlainAll(tenants)
        == PlainAll(old(tenants))[t := Plain(old(tenants)[t]).(deficit := deficit, visitOpen := open)]
      ensures forall x :: Waiting(tenants, x) <==> Waiting(old(tenants), x)
    {
      hide CountersOk, EntriesOk, HeapOk, Waiting, PlainAll;
      CountersRetuned(cfg, tenants, global, inflight, t, deficit, open);
      EntriesMoved(tenants, inflight, entries, causes,
        tenants[t := tenants[t].(deficit := deficit, visitOpen := open)]);
      HeapMoved(tenants, tenants[t := tenants[t].(deficit := deficit, visitOpen := open)], expiry.q);
      tenants := tenants[t := tenants[t].(deficit := deficit, visitOpen := open)];
    }

    /** Grants one quantum and opens the visit. */
    method FundTenant()
      requires Pumping() && tenants[cursor].queue != [] && !tenants[cursor].visitOpen
      requires Alive(Abs(), tenants[cursor].queue[0])
      modifies this`tenants, this`history
      ensures Pumping() && history == old(history) + [Fund(cursor)]
      ensures tenants[cursor].deficit == old(tenants)[cursor].deficit + cfg.tenants[cursor].quantum <= cfg.deficitCap
      ensures tenants == old(tenants)[cursor := old(tenants)[cursor].(deficit := tenants[cursor].deficit,
        visitOpen := true)]
      ensures cfg.tenants[cursor].quantum > 0
    {
      hide Sound, CountersOk, EntriesOk, HeapOk, Legal, Run, Inv, Initial, Waiting, QueueLoad, TotalLoad, TenantLoad,
        PlainAll, BoundedAdd;
      ghost var s := Abs();
      CreditRoom();
      QueueHead(cursor);
      var credit := BoundedAdd(tenants[cursor].deficit, tenants[cursor].config.quantum, cfg.deficitCap);
      Retune(cursor, credit, true);
      assert Apply(cfg, s, Fund(s.cursor)) == Abs();
      Note(Fund(s.cursor));
    }

    lemma CreditRoom()
      requires Valid() && cursor < |tenants| && !tenants[cursor].visitOpen
      ensures |PlainAll(tenants)| == |tenants| == |cfg.tenants| && PlainAll(tenants)[cursor] == Plain(tenants[cursor])
      ensures tenants[cursor].config == cfg.tenants[cursor] && cfg.tenants[cursor].quantum > 0
      ensures BoundedAdd(tenants[cursor].deficit, cfg.tenants[cursor].quantum, cfg.deficitCap)
              == tenants[cursor].deficit + cfg.tenants[cursor].quantum <= cfg.deficitCap
    {
      hide EntriesOk, HeapOk, Legal, Run, Limits, Identity, FundingBound, QueueLoad, TotalLoad, TenantLoad;
      InitialInv(cfg);
      RunInv(cfg, Initial(cfg), history);
      assert SoundTenant(cfg, cfg.tenants[cursor]);
      assert CreditOk(cfg, Abs().tenants[cursor], cfg.tenants[cursor].quantum);
    }

    /** The head is stopped by its tenant's own in-flight limit: its visit stays open. */
    method BlockTenant()
      requires Pumping() && tenants[cursor].queue != [] && tenants[cursor].visitOpen
      requires tenants[cursor].queue[0].tenant == cursor < |cfg.tenants|
        && !FitsTenant(cfg, Abs(), tenants[cursor].queue[0])
      modifies this`cursor, this`history
      ensures Pumping() && history == old(history) + [Block(old(cursor))]
      ensures cursor == NextPosition(old(cursor), |tenants|)
    {
      hide Sound, CountersOk, EntriesOk, HeapOk, Legal, Run, Inv, Initial, Waiting, QueueLoad, TotalLoad, TenantLoad,
        PlainAll, FitsTenant;
      ghost var s := Abs();
      Invariant();
      PlainAllSize(tenants);
      PlainAllAt(tenants, cursor);
      TenantFrame(s, tenants[cursor].queue[0]);
      cursor := NextPosition(cursor, |tenants|);
      assert Apply(cfg, s, Block(s.cursor)) == Abs();
      Note(Block(s.cursor));
    }

    lemma TenantFrame(s: State, r: Request)
      requires r.tenant < |cfg.tenants| && s.inflight == inflight
      ensures FitsTenant(cfg, s, r)
        == InflightFits(TenantLoad(inflight, r.tenant), r.work, cfg.tenants[r.tenant].inflight)
      ensures FitsGlobal(cfg, s, r) == InflightFits(QueueLoad(inflight), r.work, cfg.globalInflight)
    {
    }

    /** The head needs more credit than the tenant has: the visit ends. */
    method CloseVisit()
      requires Pumping() && tenants[cursor].queue != [] && tenants[cursor].visitOpen
      requires tenants[cursor].queue[0].tenant == cursor < |cfg.tenants|
        && FitsTenant(cfg, Abs(), tenants[cursor].queue[0])
      requires tenants[cursor].queue[0].work > tenants[cursor].deficit
      modifies this`tenants, this`cursor, this`history
      ensures Pumping() && history == old(history) + [Close(old(cursor))]
      ensures tenants == old(tenants)[old(cursor) := old(tenants)[old(cursor)].(visitOpen := false)]
      ensures cursor == NextPosition(old(cursor), |tenants|)
    {
      hide Sound, CountersOk, EntriesOk, HeapOk, Legal, Run, Inv, Initial, Waiting, QueueLoad, TotalLoad, TenantLoad,
        PlainAll, FitsTenant;
      ghost var s := Abs();
      Invariant();
      PlainAllSize(tenants);
      PlainAllAt(tenants, cursor);
      Retune(cursor, tenants[cursor].deficit, false);
      cursor := NextPosition(cursor, |tenants|);
      assert Apply(cfg, s, Close(s.cursor)) == Abs();
      Note(Close(s.cursor));
    }

    /** Nothing is queued at the end of a cycle: the next one starts at the first tenant. */
    method RewindCursor()
      requires Pumping() && TotalLoad(Abs().tenants).count == 0
      modifies this`cursor, this`history
      ensures Valid() && history == old(history) + [Rewind] && cursor == 0
    {
      hide Sound, CountersOk, EntriesOk, HeapOk, Legal, Run, Initial, QueueLoad, TotalLoad, TenantLoad, PlainAll;
      ghost var s := Abs();
      cursor := 0;
      assert Apply(cfg, s, Rewind) == Abs();
      Note(Rewind);
    }

    ghost predicate Dispatchable(item: Request)
      reads this, expiry
    {
      && Pumping() && item.tenant == cursor && tenants[cursor].queue != [] && tenants[cursor].queue[0] == item
      && tenants[cursor].visitOpen && item.work <= tenants[cursor].deficit && cursor < |cfg.tenants|
      && FitsTenant(cfg, Abs(), item) && FitsGlobal(cfg, Abs(), item) && Alive(Abs(), item)
    }

    /** Pays for the head, moves it from its queue into flight and hands its client the permit. */
    method DispatchHead(item: Request)
      requires Dispatchable(item)
      modifies this`tenants, this`global, this`entries, this`inflight, this`results, this`cursor, this`history, expiry
      ensures Valid() && accepting && cursor < |tenants| && history == old(history) + [Dispatch(item)]
      ensures inflight == old(inflight) + [item]
      ensures results == old(results)[item.id := Dispatched] && item.id !in old(results)
      ensures 0 < old(global.queuedCount) && global.queuedCount == old(global.queuedCount) - 1
      ensures |tenants| == |old(tenants)|
      ensures forall t :: 0 <= t < |tenants| && t != old(cursor) ==> tenants[t] == old(tenants)[t]
      ensures tenants[old(cursor)].queue == Without(old(tenants)[old(cursor)].queue, item)
      ensures cursor == (if tenants[old(cursor)].queue == [] then NextPosition(old(cursor), |tenants|) else old(cursor))
      ensures tenants[old(cursor)].queue != [] ==> tenants[old(cursor)].visitOpen
    {
      hide Sound, CountersOk, EntriesOk, HeapOk, Legal, Run, Initial, Waiting, QueueLoad, TotalLoad, TenantLoad,
        PlainAll, FitsTenant, FitsGlobal, GlobalFull, Alive, Without, Leave, Enabled, Apply, Queued, Distinct, Spend;
      ghost var s := Abs();
      var visited := cursor;
      Departure(item);
      DispatchEffect(cfg, s, item);
      TenantFrame(s, item);
      TakeHead(item);
      Charge(item);
      PlainAllAt(tenants, visited);
      results := results[item.id := Dispatched];
      if tenants[visited].queue == [] {
        cursor := NextPosition(cursor, |tenants|);
      }
      Note(Dispatch(item));
    }

    lemma Departure(item: Request)
      requires Dispatchable(item)
      ensures Waiting(tenants, item) && Distinct(tenants[cursor].queue)
      ensures item.id !in results && item.id !in causes
      ensures |PlainAll(tenants)| == |tenants| == |cfg.tenants| && PlainAll(tenants)[cursor] == Plain(tenants[cursor])
    {
      hide Sound, Agrees, Legal, Run, Shape, Limits, FitsTenant, FitsGlobal, GlobalFull, Alive;
      Invariant();
      InitialInv(cfg);
      RunInv(cfg, Initial(cfg), history);
      assert item in tenants[cursor].queue;
    }

    static lemma DispatchEffect(c: ValidatedConfig, s: State, item: Request)
      requires PumpRoom(c, s) && HeadAt(c, s, item.tenant) && s.tenants[item.tenant].queue[0] == item
      requires s.tenants[item.tenant].visitOpen && item.work <= s.tenants[item.tenant].deficit
      requires FitsTenant(c, s, item) && FitsGlobal(c, s, item) && Alive(s, item)
      ensures Enabled(c, s, Dispatch(item))
      ensures var left := Leave(Spend(s, item), item).tenants;
        && item.tenant < |left| == |s.tenants|
        && Apply(c, s, Dispatch(item))
           == s.(tenants := left, inflight := s.inflight + [item], results := s.results[item.id := Dispatched],
                 cursor := if left[item.tenant].queue == [] then NextPosition(s.cursor, |s.tenants|) else s.cursor)
    {
      hide QueueLoad, TotalLoad, TenantLoad, FitsTenant, FitsGlobal, GlobalFull, Alive, Without, Settle;
    }

    /** Pays for the head and takes it out of its queue; the table already shows it in flight. */
    method TakeHead(item: Request)
      requires Dispatchable(item)
      modifies this`tenants, this`global, this`entries, expiry
      ensures expiry.Valid() && CountersOk(cfg, tenants, global, inflight) && HeapOk(tenants, expiry.q)
      ensures EntriesOk(tenants, inflight + [item], entries, causes)
      ensures item.tenant == cursor && item.work <= old(tenants)[cursor].deficit
      ensures PlainAll(tenants) == Leave(Spend(old(Abs()), item), item).tenants
      ensures 0 < old(global.queuedCount) && global.queuedCount == old(global.queuedCount) - 1
      ensures |tenants| == |old(tenants)|
      ensures forall t :: 0 <= t < |tenants| && t != cursor ==> tenants[t] == old(tenants)[t]
      ensures tenants[cursor].queue == Without(old(tenants)[cursor].queue, item)
      ensures tenants[cursor].queue != [] ==> tenants[cursor].visitOpen
    {
      hide Sound, CountersOk, EntriesOk, HeapOk, Legal, Run, Initial, Waiting, QueueLoad, TotalLoad, TenantLoad,
        PlainAll, FitsTenant, FitsGlobal, GlobalFull, Alive, Without, Leave, Queued, Distinct;
      ghost var s := Abs();
      Departure(item);
      Retune(cursor, tenants[cursor].deficit - item.work, true);
      ghost var paid := tenants;
      ghost var records := entries;
      TakenOutWaiting(paid, item);
      RemovedOne(cfg, paid, global, inflight, item);
      TakenOutIsLeave(Spend(s, item), paid, item);
      RemoveQueued(item);
      EntriesDispatched(paid, inflight, records, causes, item, tenants);
      entries := entries[item.id := Record(item, EntryInflight, PhaseInflight, None)];
      assert entries == records[item.id := Record(item, EntryInflight, PhaseInflight, None)];
    }

    /** Counts a request that is already out of its queue as in flight. */
    method Charge(item: Request)
      requires expiry.Valid() && CountersOk(cfg, tenants, global, inflight) && HeapOk(tenants, expiry.q)
      requires EntriesOk(tenants, inflight + [item], entries, causes)
      requires item.tenant < |tenants| == |cfg.tenants|
      requires InflightFits(TenantLoad(inflight, item.tenant), item.work, cfg.tenants[item.tenant].inflight)
      requires InflightFits(QueueLoad(inflight), item.work, cfg.globalInflight)
      modifies this`tenants, this`global, this`inflight
      ensures Agrees() && inflight == old(inflight) + [item] && PlainAll(tenants) == PlainAll(old(tenants))
      ensures global.queuedCount == old(global.queuedCount)
      ensures tenants == old(tenants)[item.tenant := Charged(old(tenants)[item.tenant], item.work)]
    {
      hide CountersOk, EntriesOk, HeapOk, Waiting, QueueLoad, TotalLoad, TenantLoad, PlainAll, FitsTenant, FitsGlobal;
      CountersCharged(cfg, tenants, global, inflight, item);
      ChargedWaiting(tenants, item);
      EntriesMoved(tenants, inflight + [item], entries, causes,
        tenants[item.tenant := Charged(tenants[item.tenant], item.work)]);
      HeapMoved(tenants, tenants[item.tenant := Charged(tenants[item.tenant], item.work)], expiry.q);
      tenants := tenants[item.tenant := Charged(tenants[item.tenant], item.work)];
      global := global.AddInflight(item.work);
      inflight := inflight + [item];
    }

    static lemma ChargedWaiting(ts: seq<TenantState>, item: Request)
      requires item.tenant < |ts|
      ensures forall x :: Waiting(ts[item.tenant := Charged(ts[item.tenant], item.work)], x) <==> Waiting(ts, x)
    {
    }

    // -------------------------------------------------------------------
    // The pump
    // -------------------------------------------------------------------

    /** Removes the head if its client has left or its deadline has passed. */
    method SweepHead(t: nat) returns (removed: bool)
      requires Valid() && t < |tenants| && tenants[t].queue != []
      modifies this`tenants, this`global, this`entries, this`results, this`canceled, this`now, this`history, expiry
      ensures Valid() && OnlyPumped(old(history), history) && |tenants| == |old(tenants)|
      ensures forall i :: 0 <= i < |tenants| && i != t ==> tenants[i] == old(tenants)[i]
      ensures !removed ==> tenants == old(tenants) && global == old(global) && Alive(Abs(), tenants[t].queue[0])
      ensures removed ==> 0 < old(global.queuedCount) && global.queuedCount == old(global.queuedCount) - 1
      ensures removed ==> tenants[t] == TakenOut(old(tenants)[t], old(tenants)[t].queue[0])
      ensures removed ==>
        var head := old(tenants)[t].queue[0];
        && (head.id in canceled || head.deadline <= now)
        && results == old(results)[head.id :=
             if head.id in canceled || head.clientDeadline then CanceledQueued else QueueExpired]
      ensures !removed ==> results == old(results)
    {
      hide Valid, TakenOut, RequestOk, OnlyPumped;
      var head := tenants[t].queue[0];
      QueueHead(t);
      ghost var seen;
      var gone;
      gone, seen := ClientErr(head.id);
      ghost var mid := history;
      if gone {
        seen := DropEntry(head, OnContext);
        PumpedDrop(mid, seen, head, OnContext);
        OnlyPumpedJoin(old(history), mid, history);
        return true;
      }
      var reading := Now();
      OnlyPumpedSnoc(old(history), history);
      mid := history;
      if head.deadline <= reading {
        seen := DropEntry(head, OnDeadline);
        PumpedDrop(mid, seen, head, OnDeadline);
        OnlyPumpedJoin(old(history), mid, history);
        return true;
      }
      removed := false;
    }

    /** A tenant no visit can serve: nothing is queued, or its own limit stops its head. */
    ghost predicate Idle(t: nat)
      requires t < |tenants| == |cfg.tenants|
      reads this
    {
      tenants[t].queue == []
      || TenantLoad(inflight, t).count + 1 > cfg.tenants[t].inflight.count
      || TenantLoad(inflight, t).work + tenants[t].queue[0].work > cfg.tenants[t].inflight.work
    }

    ghost predicate MayStop()
      reads this, expiry
    {
      Valid() && (GlobalFull(cfg, Abs()) || exists r :: Reserved(cfg, Abs(), r) && !FitsGlobal(cfg, Abs(), r))
    }

    lemma HeadFacts(t: nat)
      requires Valid() && t < |tenants| && tenants[t].queue != []
      ensures |tenants| == |cfg.tenants| && |PlainAll(tenants)| == |tenants|
        && PlainAll(tenants)[t] == Plain(tenants[t])
      ensures var r := tenants[t].queue[0];
        && r.tenant == t
        && FitsTenant(cfg, Abs(), r) == InflightFits(TenantLoad(inflight, t), r.work, cfg.tenants[t].inflight)
        && FitsTenant(cfg, Abs(), r)
           == InflightFits(InflightLoad(tenants[t].counters), r.work, tenants[t].config.inflight)
        && FitsGlobal(cfg, Abs(), r) == InflightFits(InflightLoad(global), r.work, cfg.globalInflight)
    {
      hide Sound, EntriesOk, HeapOk, Legal, Run, RequestOk, QueueLoad, TotalLoad, TenantLoad;
      QueueHead(t);
    }

    lemma ReservedHead(r: Request)
      requires Pumping() && |cfg.tenants| == |tenants| && tenants[cursor].queue != [] && tenants[cursor].queue[0] == r
      requires r.tenant == cursor && tenants[cursor].visitOpen && r.work <= tenants[cursor].deficit
      requires FitsTenant(cfg, Abs(), r)
      ensures Reserved(cfg, Abs(), r)
    {
      hide Sound, Agrees, Legal, Run, FitsTenant, GlobalFull;
      PlainAllAt(tenants, cursor);
    }

    static lemma TakenOutOpen(t: TenantState, r: Request)
      ensures TakenOut(t, r).queue != [] ==> TakenOut(t, r).visitOpen == t.visitOpen
    {
    }

    /**
     * Serves an open visit until the tenant has nothing left, is stopped by its own
     * limit, runs out of credit, or global capacity ends the pump.
     */
    method ServeVisit(cap: nat) returns (p: Passing)
      requires Pumping() && cap == cfg.deficitCap && |tenants| == |cfg.tenants|
      requires tenants[cursor].queue != [] && tenants[cursor].visitOpen && tenants[cursor].deficit <= cap
      modifies this`tenants, this`global, this`entries, this`results, this`canceled, this`now, this`inflight,
        this`cursor, this`history, expiry
      ensures Valid() && OnlyPumped(old(history), history) && accepting
      ensures p.Stopped? ==> MayStop()
      ensures p.Passed? ==> Pumping() && cursor == NextPosition(old(cursor), |tenants|)
      ensures |tenants| == |old(tenants)|
      ensures forall t :: 0 <= t < |tenants| && t != old(cursor) ==> tenants[t] == old(tenants)[t]
      ensures p.Passed? && !p.dispatched ==> inflight == old(inflight)
      ensures p.Passed? && !p.dispatched && !p.needsFunding ==> Idle(old(cursor))
      ensures global.queuedCount <= old(global.queuedCount)
      ensures p.Passed? && p.dispatched ==> global.queuedCount < old(global.queuedCount)
      ensures p.Passed? && global.queuedCount == old(global.queuedCount) ==>
        tenants == (if p.needsFunding then old(tenants)[old(cursor) := old(tenants)[old(cursor)].(visitOpen := false)]
                    else old(tenants))
    {
      hide Valid, QueueLoad, TotalLoad, TenantLoad, InflightFits, MayStop, OnlyPumped, GlobalFull;
      var visited := cursor;
      var dispatched := false;
      OnlyPumpedRefl(history);
      while tenants[visited].queue != []
        invariant Pumping() && OnlyPumped(old(history), history) && cursor == visited
        invariant |tenants| == |old(tenants)|
        invariant forall t :: 0 <= t < |tenants| && t != visited ==> tenants[t] == old(tenants)[t]
        invariant !dispatched ==> inflight == old(inflight)
        invariant global.queuedCount <= old(global.queuedCount)
        invariant dispatched ==> global.queuedCount < old(global.queuedCount)
        invariant global.queuedCount == old(global.queuedCount) ==> tenants == old(tenants)
        invariant tenants[visited].queue != [] ==> tenants[visited].visitOpen
        decreases global.queuedCount
      {
        ghost var mid := history;
        var step := ServeHead();
        OnlyPumpedJoin(old(history), mid, history);
        match step {
          case HeadBlocked => return Passed(dispatched, false);
          case HeadUnfunded => return Passed(dispatched, true);
          case HeadWaits => return Stopped;
          case HeadRemoved =>
          case HeadServed =>
            dispatched := true;
            if tenants[visited].queue == [] {
              return Passed(true, false);
            }
        }
      }
      SkipTenant();
      OnlyPumpedSnoc(old(history), history);
      p := Passed(dispatched, false);
    }

    /**
     * The head of an open visit: blocked by its tenant's limit, in need of credit,
     * removed, waiting for global capacity or using up the last of it, or served.
     */
    method ServeHead() returns (step: HeadStep)
      requires Pumping() && |tenants| == |cfg.tenants| && tenants[cursor].queue != [] && tenants[cursor].visitOpen
      modifies this`tenants, this`global, this`entries, this`results, this`canceled, this`now, this`inflight,
        this`cursor, this`history, expiry
      ensures Valid() && OnlyPumped(old(history), history) && accepting && |tenants| == |old(tenants)|
      ensures forall t :: 0 <= t < |tenants| && t != old(cursor) ==> tenants[t] == old(tenants)[t]
      ensures global.queuedCount <= old(global.queuedCount)
      ensures step.HeadWaits? ==> MayStop()
      ensures !step.HeadWaits? ==> Pumping()
      ensures step.HeadBlocked? || step.HeadUnfunded? ==>
        && cursor == NextPosition(old(cursor), |tenants|) && inflight == old(inflight)
        && global.queuedCount == old(global.queuedCount)
      ensures step.HeadBlocked? ==> tenants == old(tenants) && Idle(old(cursor))
      ensures step.HeadUnfunded? ==>
        tenants == old(tenants)[old(cursor) := old(tenants)[old(cursor)].(visitOpen := false)]
      ensures step.HeadRemoved? || step.HeadServed? ==>
        && global.queuedCount < old(global.queuedCount)
        && (tenants[old(cursor)].queue != [] ==> tenants[old(cursor)].visitOpen)
      ensures step.HeadRemoved? ==> cursor == old(cursor) && inflight == old(inflight)
      ensures step.HeadServed? ==>
        cursor == if tenants[old(cursor)].queue == [] then NextPosition(old(cursor), |tenants|) else old(cursor)
    {
      hide Valid, FitsTenant, FitsGlobal, TakenOut, Reserved, Alive, QueueLoad, TotalLoad, TenantLoad, InflightFits;
      var visited := cursor;
      var head := tenants[visited].queue[0];
      HeadFacts(visited);
      if !InflightFits(InflightLoad(tenants[visited].counters), head.work, tenants[visited].config.inflight) {
        BlockTenant();
        return HeadBlocked;
      }
      if head.work > tenants[visited].deficit {
        CloseVisit();
        return HeadUnfunded;
      }
      ghost var before := tenants[visited];
      var removed := SweepHead(visited);
      if removed {
        TakenOutOpen(before, head);
        return HeadRemoved;
      }
      HeadFacts(visited);
      if !InflightFits(InflightLoad(global), head.work, cfg.globalInflight) {
        ReservedHead(head);
        return HeadWaits;
      }
      DispatchHead(head);
      FullIsCounted();
      if global.inflightCount == cfg.globalInflight.count || global.inflightWork == cfg.globalInflight.work {
        return HeadWaits;
      }
      step := HeadServed;
    }

    lemma CreditWithinCap(t: nat)
      requires Valid() && t < |tenants|
      ensures |tenants| == |cfg.tenants| && tenants[t].deficit <= cfg.deficitCap
    {
      hide Agrees, Legal, Run, Limits, Identity, FundingBound;
      InitialInv(cfg);
      RunInv(cfg, Initial(cfg), history);
      assert SoundTenant(cfg, cfg.tenants[t]);
      assert CreditOk(cfg, Abs().tenants[t], cfg.tenants[t].quantum);
    }

    /** One tenant's turn in a cycle. */
    method VisitTenant() returns (p: Passing)
      requires Pumping() && |tenants| == |cfg.tenants|
      modifies this`tenants, this`global, this`entries, this`results, this`canceled, this`now, this`inflight,
        this`cursor, this`history, expiry
      ensures Valid() && OnlyPumped(old(history), history) && accepting
      ensures p.Stopped? ==> MayStop()
      ensures p.Passed? ==> Pumping() && cursor == NextPosition(old(cursor), |tenants|)
      ensures |tenants| == |old(tenants)|
      ensures forall t :: 0 <= t < |tenants| && t != old(cursor) ==> tenants[t] == old(tenants)[t]
      ensures p.Passed? && !p.dispatched ==> inflight == old(inflight)
      ensures p.Passed? && !p.dispatched && !p.needsFunding ==> Idle(old(cursor))
      ensures global.queuedCount <= old(global.queuedCount)
      ensures p.Passed? && p.dispatched ==> global.queuedCount < old(global.queuedCount)
      ensures p.Passed? && global.queuedCount == old(global.queuedCount) ==>
        var was, left := TenantSlack(cfg.deficitCap, Plain(old(tenants)[old(cursor)])),
          TenantSlack(cfg.deficitCap, Plain(tenants[old(cursor)]));
        left <= was && (p.needsFunding ==> left < was)
    {
      hide Valid, TakenOut, Alive, QueueLoad, TotalLoad, TenantLoad, InflightFits, MayStop, OnlyPumped;
      var visited := cursor;
      ghost var start := tenants[visited];
      var live := SweepTenant();
      if !live {
        SkipTenant();
        OnlyPumpedSnoc(old(history), history);
        return Passed(false, false);
      }
      CreditWithinCap(visited);
      if !tenants[visited].visitOpen {
        FundTenant();
        OnlyPumpedSnoc(old(history), history);
      }
      ghost var swept := history;
      p := ServeVisit(cfg.deficitCap);
      OnlyPumpedJoin(old(history), swept, history);
    }

    static lemma OnlyPumpedSnoc(before: seq<Event>, after: seq<Event>)
      requires |after| > 0 && OnlyPumped(before, after[..|after| - 1]) && PumpEvent(after[|after| - 1])
      ensures OnlyPumped(before, after)
    {
    }

    static lemma OnlyPumpedJoin(a: seq<Event>, b: seq<Event>, c: seq<Event>)
      requires OnlyPumped(a, b) && OnlyPumped(b, c)
      ensures OnlyPumped(a, c)
    {
    }

    /** Removes dead heads at the cursor until a live one or nothing is left. */
    method SweepTenant() returns (live: bool)
      requires Pumping()
      modifies this`tenants, this`global, this`entries, this`results, this`canceled, this`now, this`history, expiry
      ensures Pumping() && OnlyPumped(old(history), history) && |tenants| == |old(tenants)|
      ensures forall t :: 0 <= t < |tenants| && t != cursor ==> tenants[t] == old(tenants)[t]
      ensures live ==> tenants[cursor].queue != [] && Alive(Abs(), tenants[cursor].queue[0])
      ensures !live ==> tenants[cursor].queue == []
      ensures global.queuedCount <= old(global.queuedCount)
      ensures global.queuedCount == old(global.queuedCount) ==> tenants == old(tenants)
    {
      hide Valid, TakenOut, Alive, QueueLoad, TotalLoad, TenantLoad;
      live := false;
      while tenants[cursor].queue != [] && !live
        invariant Pumping() && OnlyPumped(old(history), history) && |tenants| == |old(tenants)|
        invariant forall t :: 0 <= t < |tenants| && t != cursor ==> tenants[t] == old(tenants)[t]
        invariant live ==> tenants[cursor].queue != [] && Alive(Abs(), tenants[cursor].queue[0])
        invariant global.queuedCount <= old(global.queuedCount)
        invariant global.queuedCount == old(global.queuedCount) ==> tenants == old(tenants)
        decreases global.queuedCount, !live
      {
        var removed := SweepHead(cursor);
        live := !removed;
      }
    }

    /** One visit to every tenant, starting at the cursor. */
    method Cycle() returns (p: Passing)
      requires Pumping() && |tenants| == |cfg.tenants|
      modifies this`tenants, this`global, this`entries, this`results, this`canceled, this`now, this`inflight,
        this`cursor, this`history, expiry
      ensures Valid() && OnlyPumped(old(history), history) && accepting && |tenants| == |cfg.tenants|
      ensures p.Stopped? ==> MayStop()
      ensures p.Passed? ==> Pumping()
      ensures p.Passed? && !p.dispatched && !p.needsFunding ==> forall t :: 0 <= t < |tenants| ==> Idle(t)
      ensures global.queuedCount <= old(global.queuedCount)
      ensures p.Passed? && p.dispatched ==> global.queuedCount < old(global.queuedCount)
      ensures p.Passed? && p.needsFunding && global.queuedCount == old(global.queuedCount) ==>
        Slack(cfg.deficitCap, PlainAll(tenants)) < Slack(cfg.deficitCap, PlainAll(old(tenants)))
    {
      hide Valid, TenantSlack, Slack, QueueLoad, TotalLoad, TenantLoad, InflightFits, MayStop, OnlyPumped, GlobalFull,
        PlainAll;
      var dispatched, needsFunding := false, false;
      ghost var start := cursor;
      ghost var n := |tenants|;
      OnlyPumpedRefl(history);
      for visited := 0 to |tenants|
        invariant Pumping() && OnlyPumped(old(history), history) && |tenants| == |cfg.tenants| == n
        invariant visited < n ==> Distance(start, cursor, n) == visited
        invariant !dispatched ==> inflight == old(inflight)
        invariant !dispatched && !needsFunding ==> forall t :: 0 <= t < n && Distance(start, t, n) < visited ==> Idle(t)
        invariant global.queuedCount <= old(global.queuedCount)
        invariant dispatched ==> global.queuedCount < old(global.queuedCount)
        invariant global.queuedCount == old(global.queuedCount) ==>
          Slack(cfg.deficitCap, PlainAll(tenants)) <= Slack(cfg.deficitCap, PlainAll(old(tenants)))
        invariant global.queuedCount == old(global.queuedCount) && needsFunding ==>
          Slack(cfg.deficitCap, PlainAll(tenants)) < Slack(cfg.deficitCap, PlainAll(old(tenants)))
      {
        ghost var before, at, mid := tenants, cursor, history;
        var passing := VisitTenant();
        OnlyPumpedJoin(old(history), mid, history);
        if passing.Stopped? {
          return Stopped;
        }
        SlackVisit(cfg.deficitCap, before, tenants, at);
        RingNext(start, at, n);
        dispatched := dispatched || passing.dispatched;
        needsFunding := needsFunding || passing.needsFunding;
      }
      p := Passed(dispatched, needsFunding);
    }

    static lemma OnlyPumpedRefl(h: seq<Event>)
      ensures OnlyPumped(h, h)
    {
    }

    static lemma SlackVisit(cap: nat, before: seq<TenantState>, after: seq<TenantState>, at: nat)
      requires at < |before| == |after| && forall t :: 0 <= t < |before| && t != at ==> after[t] == before[t]
      ensures Slack(cap, PlainAll(after)) + TenantSlack(cap, Plain(before[at]))
              == Slack(cap, PlainAll(before)) + TenantSlack(cap, Plain(after[at]))
    {
      hide TenantSlack, Slack;
      assert PlainAll(after) == PlainAll(before)[at := Plain(after[at])];
      SlackUpdate(cap, PlainAll(before), at, Plain(after[at]));
    }

    /** One position further on the ring is one step further from the start. */
    static lemma RingNext(start: nat, at: nat, n: nat)
      requires start < n && at < n
      ensures Distance(start, at, n) + 1 < n ==> Distance(start, NextPosition(at, n), n) == Distance(start, at, n) + 1
      ensures forall t :: 0 <= t < n && Distance(start, t, n) == Distance(start, at, n) ==> t == at
    {
    }

    /**
     * Serves queued work by weighted deficit round robin. The call ends, causes only
     * pump events, and stops only for one of the work-conserving reasons.
     */
    method Pump()
      requires Valid() && (accepting || TotalLoad(Abs().tenants).count == 0)
      modifies this`tenants, this`global, this`entries, this`results, this`canceled, this`now, this`inflight,
        this`cursor, this`history, expiry
      ensures Valid() && OnlyPumped(old(history), history)
      ensures |Abs().tenants| == |cfg.tenants| && WorkConserving(cfg, Abs())
      ensures !accepting ==> TotalLoad(Abs().tenants).count == 0
      ensures old(TotalLoad(Abs().tenants).count > 0 && !GlobalFull(cfg, Abs())) ==>
        TotalLoad(Abs().tenants).count == 0 && !GlobalFull(cfg, Abs()) ==> cursor == 0
    {
      hide Valid, TotalLoad, QueueLoad, TenantLoad, Slack, OnlyPumped, GlobalFull, WorkConserving, MayStop, Idle;
      Sizes();
      OnlyPumpedRefl(history);
      if |tenants| == 0 {
        return;
      }
      FullIsCounted();
      InflightCounted();
      if global.inflightCount == cfg.globalInflight.count || global.inflightWork == cfg.globalInflight.work {
        FullStops();
        return;
      }
      while global.queuedCount > 0
        invariant Valid() && OnlyPumped(old(history), history) && |tenants| == |cfg.tenants|
          && |Abs().tenants| == |tenants|
        invariant !GlobalFull(cfg, Abs()) && cursor < |tenants|
        invariant global.queuedCount == TotalLoad(Abs().tenants).count
        invariant !accepting ==> global.queuedCount == 0
        invariant global.queuedCount == 0 ==> old(TotalLoad(Abs().tenants).count) == 0
        decreases global.queuedCount, Slack(cfg.deficitCap, PlainAll(tenants))
      {
        ghost var mid := history;
        var passing := Cycle();
        OnlyPumpedJoin(old(history), mid, history);
        InflightCounted();
        Sizes();
        if passing.Stopped? {
          StoppedConserves();
          return;
        }
        if global.queuedCount == 0 {
          RewindCursor();
          OnlyPumpedSnoc(old(history), history);
          NothingConserves();
          return;
        }
        if !passing.dispatched && !passing.needsFunding {
          IdleConserves();
          return;
        }
      }
      NothingConserves();
    }

    lemma Sizes()
      requires Valid()
      ensures |tenants| == |cfg.tenants| == |Abs().tenants| && 0 < |tenants| && cursor < |tenants|
    {
      hide Agrees, Legal, Run, Inv, Sound;
      Invariant();
      PositiveTenants(cfg);
    }

    static lemma PositiveTenants(c: ValidatedConfig)
      requires Sound(c)
      ensures |c.tenants| > 0
    {
    }

    lemma FullStops()
      requires Valid() && GlobalFull(cfg, Abs()) && |Abs().tenants| == |cfg.tenants|
      ensures WorkConserving(cfg, Abs())
    {
    }

    lemma StoppedConserves()
      requires MayStop() && |Abs().tenants| == |cfg.tenants|
      ensures WorkConserving(cfg, Abs()) && (GlobalFull(cfg, Abs()) || TotalLoad(Abs().tenants).count > 0)
    {
      hide Valid, GlobalFull, Reserved, FitsGlobal, TotalLoad;
      if !GlobalFull(cfg, Abs()) {
        var r :| Reserved(cfg, Abs(), r) && !FitsGlobal(cfg, Abs(), r);
        ReservedPlaced(cfg, Abs(), r);
        QueuedSomewhere(Abs(), r.tenant);
      }
    }

    lemma NothingConserves()
      requires |Abs().tenants| == |cfg.tenants| && TotalLoad(Abs().tenants).count == 0
      ensures WorkConserving(cfg, Abs())
    {
      hide GlobalFull, TotalLoad;
    }

    lemma IdleConserves()
      requires Valid() && |tenants| == |cfg.tenants| == |Abs().tenants| && forall t :: 0 <= t < |tenants| ==> Idle(t)
      ensures WorkConserving(cfg, Abs())
    {
      hide Valid, GlobalFull, TotalLoad, QueueLoad, TenantLoad, InflightFits;
      forall t | 0 <= t < |tenants| && HeadPlaced(Abs(), t) ensures !FitsTenant(cfg, Abs(), Abs().tenants[t].queue[0]) {
        assert Idle(t);
        assert Abs().tenants[t].queue == tenants[t].queue;
      }
      assert OwnLimitBlocksAll(cfg, Abs());
    }
  }
}
