/**
 * The bound on a wait has to count the visits that start over: a tenant whose queue is
 * emptied by a cancellation in the middle of its visit, and filled again before the
 * cursor moves, is funded anew each time.
 */
module ServiceLimit {
  import opened Prelude
  import opened AdmissionConfig
  import opened Scheduling
  import opened SchedulingInvariant
  import opened Fairness
  import opened FundingCost
  import opened Barrier
  import opened Service
  import opened Example

  predicate Small(r: Request, t: nat, m: nat) {
    r.tenant == t && r.bytes == 1 && r.work == 1 && r.deadline == 9 && r.id < m
  }

  /** Two small requests of the first tenant and one of the second; identifiers from `m` on are new. */
  ghost predicate Round(s: State, m: nat, a: Request, b: Request, r: Request) {
    && s.tenants == [Tenant([a, b], 0, false), Tenant([r], 0, false)]
    && s.cursor == 0 && s.inflight == [] && s.accepting && s.now == 0
    && Small(a, 0, m) && Small(b, 0, m) && Small(r, 1, m) && a.id != b.id && a.id != r.id && b.id != r.id
    && a.id !in s.canceled && b.id !in s.canceled && r.id !in s.canceled
    && (forall id :: id in s.results || id in s.canceled ==> id < m)
    && a.id !in s.results && b.id !in s.results && r.id !in s.results
  }

  function Newcomer(id: nat): (r: Submission) { Submission(id, 1, 1, 1, 9, false) }

  function Joined(id: nat, sequence: nat): (r: Request) { Request(id, 0, 1, 1, 9, false, sequence) }

  /** One round: fund, serve one, cancel the other, admit two more, finish the first. */
  function Events(m: nat, a: Request, b: Request): (r: seq<Event>) {
    [Fund(0), Dispatch(a), ClientCancels(b.id), Drop(b, OnContext), Admit(Newcomer(m)), Admit(Newcomer(m + 1)),
     Release(a, Completed)]
  }

  lemma Then(cfg: ValidatedConfig, s: State, es: seq<Event>, mid: State, e: Event, after: State)
    requires Legal(cfg, s, es) && Run(cfg, s, es) == mid && Enabled(cfg, mid, e) && Apply(cfg, mid, e) == after
    ensures Legal(cfg, s, es + [e]) && Run(cfg, s, es + [e]) == after
  {
    RunSnoc(cfg, s, es, e);
  }

  lemma ServeOne(s: State, m: nat, a: Request, b: Request, r: Request) returns (after: State)
    requires Round(s, m, a, b, r)
    ensures Legal(SmallConfig(), s, [Fund(0), Dispatch(a)]) && Run(SmallConfig(), s, [Fund(0), Dispatch(a)]) == after
    ensures after == s.(tenants := [Tenant([b], 0, true), Tenant([r], 0, false)], inflight := [a],
                        results := s.results[a.id := Dispatched])
  {
    var cfg := SmallConfig();
    var funded := s.(tenants := [Tenant([a, b], 1, true), Tenant([r], 0, false)]);
    assert s.tenants[0 := Tenant([a, b], 1, true)] == funded.tenants;
    Then(cfg, s, [], s, Fund(0), funded);
    after := s.(tenants := [Tenant([b], 0, true), Tenant([r], 0, false)], inflight := [a],
                results := s.results[a.id := Dispatched]);
    assert [a, b][1..] == [b];
    assert funded.tenants[0 := Tenant([b], 0, true)] == after.tenants;
    assert Enabled(cfg, funded, Dispatch(a));
    Then(cfg, s, [Fund(0)], funded, Dispatch(a), after);
    assert [Fund(0)] + [Dispatch(a)] == [Fund(0), Dispatch(a)];
  }

  lemma DropLast(s: State, b: Request, r: Request) returns (after: State)
    requires s.tenants == [Tenant([b], 0, true), Tenant([r], 0, false)] && b.tenant == 0 && b.id in s.canceled
    ensures Enabled(SmallConfig(), s, Drop(b, OnContext)) && Apply(SmallConfig(), s, Drop(b, OnContext)) == after
    ensures after == s.(tenants := [Tenant([], 0, false), Tenant([r], 0, false)],
                        results := s.results[b.id := CanceledQueued])
  {
    hide SmallConfig;
    after := s.(tenants := [Tenant([], 0, false), Tenant([r], 0, false)], results := s.results[b.id := CanceledQueued]);
    assert Queued(s, b);
    assert s.tenants[0 := Tenant([], 0, false)] == after.tenants;
  }

  /** The canceled request was the queue's last, so its visit ends without a turn of the cursor. */
  lemma CancelOther(s: State, b: Request, r: Request) returns (after: State)
    requires s.tenants == [Tenant([b], 0, true), Tenant([r], 0, false)] && b.tenant == 0
    ensures var es := [ClientCancels(b.id), Drop(b, OnContext)];
      Legal(SmallConfig(), s, es) && Run(SmallConfig(), s, es) == after
    ensures after == s.(tenants := [Tenant([], 0, false), Tenant([r], 0, false)], canceled := s.canceled + {b.id},
                        results := s.results[b.id := CanceledQueued])
  {
    var gone := s.(canceled := s.canceled + {b.id});
    assert Enabled(SmallConfig(), s, ClientCancels(b.id)) && Apply(SmallConfig(), s, ClientCancels(b.id)) == gone;
    hide Enabled, Apply, SmallConfig;
    NoEvents(s);
    Then(SmallConfig(), s, [], s, ClientCancels(b.id), gone);
    after := DropLast(gone, b, r);
    Then(SmallConfig(), s, [ClientCancels(b.id)], gone, Drop(b, OnContext), after);
    assert [ClientCancels(b.id)] + [Drop(b, OnContext)] == [ClientCancels(b.id), Drop(b, OnContext)];
  }

  /** A small newcomer finds room behind at most one other. */
  lemma AdmitOne(s: State, q: seq<Request>, id: nat, r: Request) returns (after: State)
    requires s.tenants == [Tenant(q, 0, false), Tenant([r], 0, false)] && s.accepting && s.now == 0
    requires |q| <= 1 && (forall x :: x in q ==> Small(x, 0, id)) && Small(r, 1, id)
    requires id !in s.canceled && id !in s.results
    ensures Enabled(SmallConfig(), s, Admit(Newcomer(id))) && Apply(SmallConfig(), s, Admit(Newcomer(id))) == after
    ensures after == s.(sequence := s.sequence + 1,
                        tenants := [Tenant(q + [Joined(id, s.sequence + 1)], 0, false), Tenant([r], 0, false)])
  {
    var cfg := SmallConfig();
    after := s.(sequence := s.sequence + 1,
                tenants := [Tenant(q + [Joined(id, s.sequence + 1)], 0, false), Tenant([r], 0, false)]);
    assert QueueLoad([]) == Nothing();
    assert q != [] ==> q[1..] == [] && QueueLoad(q) == Load(1, q[0].bytes, q[0].work) && q[0] in q;
    assert QueueLoad([r]) == Load(1, 1, 1);
    assert QueueLoad(q) == Load(|q|, |q|, |q|);
    assert s.tenants[1..] == [s.tenants[1]] && s.tenants[1..][1..] == [];
    assert TotalLoad(s.tenants[1..]) == Load(1, 1, 1);
    assert TotalLoad(s.tenants) == Load(|q| + 1, |q| + 1, |q| + 1);
    assert s.tenants[0 := after.tenants[0]] == after.tenants;
    assert AdmitRefusal(cfg, s, Newcomer(id)).None?;
  }

  lemma AdmitTwo(s: State, m: nat, r: Request) returns (after: State)
    requires s.tenants == [Tenant([], 0, false), Tenant([r], 0, false)] && s.accepting && s.now == 0
    requires Small(r, 1, m) && forall id :: id in s.results || id in s.canceled ==> id < m
    ensures var es := [Admit(Newcomer(m)), Admit(Newcomer(m + 1))];
      Legal(SmallConfig(), s, es) && Run(SmallConfig(), s, es) == after
    ensures var x, y := Joined(m, s.sequence + 1), Joined(m + 1, s.sequence + 2);
      after == s.(sequence := s.sequence + 2, tenants := [Tenant([x, y], 0, false), Tenant([r], 0, false)])
  {
    hide AdmitRefusal, Enqueue, Enabled, Apply;
    var cfg := SmallConfig();
    var x, y := Joined(m, s.sequence + 1), Joined(m + 1, s.sequence + 2);
    var one := AdmitOne(s, [], m, r);
    assert [] + [x] == [x];
    Then(cfg, s, [], s, Admit(Newcomer(m)), one);
    after := AdmitOne(one, [x], m + 1, r);
    assert [x] + [y] == [x, y];
    Then(cfg, s, [Admit(Newcomer(m))], one, Admit(Newcomer(m + 1)), after);
    assert [Admit(Newcomer(m))] + [Admit(Newcomer(m + 1))] == [Admit(Newcomer(m)), Admit(Newcomer(m + 1))];
  }

  lemma FinishOne(s: State, a: Request) returns (after: State)
    requires s.inflight == [a]
    ensures Legal(SmallConfig(), s, [Release(a, Completed)]) && Run(SmallConfig(), s, [Release(a, Completed)]) == after
    ensures after.inflight == []
    ensures after == s.(inflight := [], causes := after.causes, released := after.released)
  {
    after := Apply(SmallConfig(), s, Release(a, Completed));
    Then(SmallConfig(), s, [], s, Release(a, Completed), after);
  }

  /** One round serves the first tenant once and leads to a round again. */
  lemma RoundRepeats(s: State, m: nat, a: Request, b: Request, r: Request)
    returns (after: State, x: Request, y: Request)
    requires Round(s, m, a, b, r)
    ensures Legal(SmallConfig(), s, Events(m, a, b)) && Run(SmallConfig(), s, Events(m, a, b)) == after
    ensures Round(after, m + 2, x, y, r)
  {
    hide Legal, Run, SmallConfig;
    var cfg := SmallConfig();
    var s1 := ServeOne(s, m, a, b, r);
    var s2 := CancelOther(s1, b, r);
    var s3 := AdmitTwo(s2, m, r);
    after := FinishOne(s3, a);
    x, y := Joined(m, s2.sequence + 1), Joined(m + 1, s2.sequence + 2);
    RunJoin(cfg, s, [Fund(0), Dispatch(a)], [ClientCancels(b.id), Drop(b, OnContext)]);
    var es := [Fund(0), Dispatch(a)] + [ClientCancels(b.id), Drop(b, OnContext)];
    RunJoin(cfg, s, es, [Admit(Newcomer(m)), Admit(Newcomer(m + 1))]);
    RunJoin(cfg, s, es + [Admit(Newcomer(m)), Admit(Newcomer(m + 1))], [Release(a, Completed)]);
    assert es + [Admit(Newcomer(m)), Admit(Newcomer(m + 1))] + [Release(a, Completed)] == Events(m, a, b);
  }

  lemma {:induction false} DispensedJoin(xs: seq<Event>, ys: seq<Event>)
    ensures Dispensed(xs + ys) == Dispensed(xs) + Dispensed(ys)
  {
    if ys == [] {
      assert xs + ys == xs;
    } else {
      assert (xs + ys)[..|xs + ys| - 1] == xs + ys[..|ys| - 1];
      DispensedJoin(xs, ys[..|ys| - 1]);
    }
  }

  lemma RoundDispenses(m: nat, a: Request, b: Request, r: Request)
    requires a.work == 1 && a != r && b != r
    ensures Dispensed(Events(m, a, b)) == 1
    ensures Stays(Events(m, a, b), r) && NeverBlocked(Events(m, a, b), 1)
  {
    var es := Events(m, a, b);
    assert es == [Fund(0), Dispatch(a)] + es[2..];
    DispensedJoin([Fund(0), Dispatch(a)], es[2..]);
    DispensedJoin([Fund(0)], [Dispatch(a)]);
    assert [Fund(0)] + [Dispatch(a)] == [Fund(0), Dispatch(a)];
    NoDispatchDispensesNothing([Fund(0)]);
    assert [Dispatch(a)][..0] == [];
    NoDispatchDispensesNothing(es[2..]);
  }

  lemma {:induction false} NoDispatchDispensesNothing(es: seq<Event>)
    requires forall i :: 0 <= i < |es| ==> !es[i].Dispatch?
    ensures Dispensed(es) == 0
  {
    if es != [] {
      NoDispatchDispensesNothing(es[..|es| - 1]);
    }
  }

  /**
   * However much work is served to the first tenant, some run serves it while the
   * second tenant's head is alive, unblocked and waiting.
   */
  lemma {:induction false} NoBoundWithoutStartsOver(s: State, m: nat, a: Request, b: Request, r: Request, n: nat)
    returns (es: seq<Event>)
    requires Round(s, m, a, b, r)
    ensures Legal(SmallConfig(), s, es) && Stays(es, r) && NeverBlocked(es, r.tenant) && Dispensed(es) == n
    ensures HeadIs(Run(SmallConfig(), s, es), r) && Alive(Run(SmallConfig(), s, es), r)
    decreases n
  {
    hide Legal, Run, SmallConfig, Dispensed;
    if n == 0 {
      es := [];
      NoDispatchDispensesNothing([]);
      NoEvents(s);
    } else {
      var after, x, y := RoundRepeats(s, m, a, b, r);
      var rest := NoBoundWithoutStartsOver(after, m + 2, x, y, r, n - 1);
      es := Events(m, a, b) + rest;
      RoundDispenses(m, a, b, r);
      DispensedJoin(Events(m, a, b), rest);
      RunJoin(SmallConfig(), s, Events(m, a, b), rest);
    }
  }

  lemma NoEvents(s: State)
    ensures Legal(SmallConfig(), s, []) && Run(SmallConfig(), s, []) == s
  {
  }

  function Patient(): (r: Request) { Request(0, 1, 1, 1, 9, false, 1) }

  lemma AdmitPatient() returns (es: seq<Event>, after: State)
    ensures Legal(SmallConfig(), Initial(SmallConfig()), es) && Run(SmallConfig(), Initial(SmallConfig()), es) == after
    ensures after == Initial(SmallConfig()).(sequence := 1,
                                             tenants := [Tenant([], 0, false), Tenant([Patient()], 0, false)])
  {
    var cfg, sub := SmallConfig(), Submission(0, 2, 1, 1, 9, false);
    var s := Initial(cfg);
    assert s.tenants == [Tenant([], 0, false), Tenant([], 0, false)];
    assert s.tenants[1..] == [Tenant([], 0, false)] && s.tenants[1..][1..] == [];
    assert TotalLoad(s.tenants[1..]) == Nothing() && TotalLoad(s.tenants) == Nothing();
    after := s.(sequence := 1, tenants := [Tenant([], 0, false), Tenant([Patient()], 0, false)]);
    assert s.tenants[1 := Tenant([Patient()], 0, false)] == after.tenants;
    assert AdmitRefusal(cfg, s, sub).None?;
    assert [] + [Patient()] == [Patient()];
    assert Enqueue(cfg, s, sub).tenants == after.tenants;
    Then(cfg, s, [], s, Admit(sub), after);
    es := [] + [Admit(sub)];
  }

  /** Such a wait can follow the start of the scheduler, for every amount of work. */
  lemma WaitWithoutBound(n: nat) returns (before: seq<Event>, es: seq<Event>, r: Request)
    ensures Sound(SmallConfig()) && Legal(SmallConfig(), Initial(SmallConfig()), before)
    ensures var s := Run(SmallConfig(), Initial(SmallConfig()), before);
      && HeadIs(s, r) && Legal(SmallConfig(), s, es) && Stays(es, r) && NeverBlocked(es, r.tenant) && Dispensed(es) == n
      && HeadIs(Run(SmallConfig(), s, es), r) && Alive(Run(SmallConfig(), s, es), r)
  {
    hide Legal, Run, SmallConfig, Initial, Sound;
    ConfigIsSound();
    var start := Initial(SmallConfig());
    var first, one := AdmitPatient();
    NobodyKnown();
    var two := AdmitTwo(one, 1, Patient());
    var second := [Admit(Newcomer(1)), Admit(Newcomer(2))];
    RunJoin(SmallConfig(), start, first, second);
    before, r := first + second, Patient();
    es := NoBoundWithoutStartsOver(two, 3, Joined(1, 2), Joined(2, 3), r, n);
  }

  lemma NobodyKnown()
    ensures var s := Initial(SmallConfig());
      s.results == map[] && s.canceled == {} && s.cursor == 0 && s.inflight == [] && s.accepting && s.now == 0
  {
  }
}
