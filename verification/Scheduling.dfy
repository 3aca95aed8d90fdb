/**
 * The scheduler as a labelled transition system. One event is one effect the
 * owner goroutine can have on queues, credit, permits and results. The guard of
 * an event is the branch condition under which the owner may cause it. The owner
 * class shows that its methods only ever perform sequences of these events.
 */
module Scheduling {
  import opened Prelude
  import opened AdmissionConfig

  // ---------------------------------------------------------------------
  // Entities
  // ---------------------------------------------------------------------

  /** What a client hands to the owner mailbox. */
  datatype Submission = Submission(id: nat, tenantID: nat, bytes: uint64, work: uint64, deadline: int,
                                   clientDeadline: bool)

  /** An admitted entry; its payload never changes. */
  datatype Request = Request(id: nat, tenant: nat, bytes: uint64, work: uint64, deadline: int, clientDeadline: bool,
                             sequence: nat)

  datatype Resource = CountResource | BytesResource | WorkResource

  datatype Decision =
    | Dispatched
    | TenantRejected(resource: Resource)
    | GlobalRejected(resource: Resource)
    | QueueExpired
    | CanceledQueued
    | Shutdown
    | Draining
    | Invalid

  datatype Cause = ByClient | ByShutdown

  datatype Serving = Completed | UpstreamFailed | DownstreamFailed | Canceled | InternalFailure

  datatype Terminal =
    | TerminalCompleted
    | TerminalUpstreamFailed
    | TerminalDownstreamFailed
    | TerminalCanceledInflight
    | TerminalShutdown
    | TerminalInternalFailure

  datatype CancelResult = CancelApplied | CancelAlreadyRequested | CancelAlreadyTerminal

  datatype TerminalResult = TerminalResult(outcome: Terminal, accountingReleased: bool)

  datatype Tenant = Tenant(queue: seq<Request>, deficit: nat, visitOpen: bool)

  datatype State = State(
    tenants: seq<Tenant>,
    cursor: nat,
    inflight: seq<Request>,
    causes: map<nat, Cause>,
    results: map<nat, Decision>,
    released: map<nat, Terminal>,
    sequence: nat,
    accepting: bool,
    drained: bool,
    now: int,
    canceled: set<nat>)

  datatype Reason = OnCommand | OnContext | OnDeadline | OnDrain

  datatype Event =
    | Tick(now: int)
    | ClientCancels(id: nat)
    | Admit(sub: Submission)
    | Drop(dropped: Request, reason: Reason)
    | Skip(tenant: nat)
    | Fund(tenant: nat)
    | Block(tenant: nat)
    | Close(tenant: nat)
    | Dispatch(request: Request)
    | Rewind
    | Signal(signaled: Request, cause: Cause)
    | Release(finished: Request, serving: Serving)
    | StopAccepting
    | CloseDrained

  /** Events the owner causes on its own, between or after commands. */
  predicate Internal(e: Event) {
    match e
    case Drop(_, reason) => reason != OnCommand
    case Tick(_) => true
    case Skip(_) => true
    case Fund(_) => true
    case Block(_) => true
    case Close(_) => true
    case Dispatch(_) => true
    case Rewind => true
    case Signal(_, _) => true
    case CloseDrained => true
    case ClientCancels(_) => true
    case _ => false
  }

  // ---------------------------------------------------------------------
  // Loads: counts, bytes and work carried by a list of requests
  // ---------------------------------------------------------------------

  datatype Load = Load(count: nat, bytes: nat, work: nat)

  predicate IsSum(whole: Load, left: Load, right: Load) {
    && whole.count == left.count + right.count
    && whole.bytes == left.bytes + right.bytes
    && whole.work == left.work + right.work
  }

  function Nothing(): (r: Load) { Load(0, 0, 0) }

  function LoadOf(r: Request): (result: Load) { Load(1, r.bytes, r.work) }

  function QueueLoad(q: seq<Request>): (r: Load) {
    if q == [] then Nothing() else
      var rest := QueueLoad(q[1..]);
      Load(1 + rest.count, q[0].bytes + rest.bytes, q[0].work + rest.work)
  }

  /** The part of a list that belongs to tenant `t`. */
  function TenantLoad(q: seq<Request>, t: nat): (r: Load) {
    if q == [] then Nothing() else
      var rest := TenantLoad(q[1..], t);
      if q[0].tenant == t then Load(1 + rest.count, q[0].bytes + rest.bytes, q[0].work + rest.work) else rest
  }

  function TotalLoad(ts: seq<Tenant>): (r: Load) {
    if ts == [] then Nothing() else
      var own := QueueLoad(ts[0].queue);
      var rest := TotalLoad(ts[1..]);
      Load(own.count + rest.count, own.bytes + rest.bytes, own.work + rest.work)
  }

  /** `q` without its first occurrence of `r`. */
  function Without(q: seq<Request>, r: Request): (result: seq<Request>) {
    if q == [] then [] else if q[0] == r then q[1..] else [q[0]] + Without(q[1..], r)
  }

  // ---------------------------------------------------------------------
  // Guards
  // ---------------------------------------------------------------------

  predicate Fits(current: nat, addition: nat, limit: nat) {
    current <= limit && addition <= limit - current
  }

  /** The comparison the program makes; it is that of the exact sums. */
  predicate InflightFits(held: Load, work: nat, limits: InflightLimits)
    ensures InflightFits(held, work, limits) <==> held.count + 1 <= limits.count && held.work + work <= limits.work
  {
    Fits(held.count, 1, limits.count) && Fits(held.work, work, limits.work)
  }

  /** The first resource that the addition would exceed, in the order count, bytes, work. */
  function QueueLimitFailure(held: Load, bytes: nat, work: nat, limits: QueueLimits): (r: Option<Resource>)
    ensures r == Some(CountResource) <==> held.count + 1 > limits.count
    ensures r == Some(BytesResource) <==> held.count + 1 <= limits.count && held.bytes + bytes > limits.bytes
    ensures r == Some(WorkResource) <==>
      held.count + 1 <= limits.count && held.bytes + bytes <= limits.bytes && held.work + work > limits.work
  {
    if !Fits(held.count, 1, limits.count) then Some(CountResource)
    else if !Fits(held.bytes, bytes, limits.bytes) then Some(BytesResource)
    else if !Fits(held.work, work, limits.work) then Some(WorkResource)
    else None
  }

  predicate Queued(s: State, r: Request) {
    r.tenant < |s.tenants| && r in s.tenants[r.tenant].queue
  }

  ghost predicate Known(s: State, id: nat) {
    id in s.results || exists r :: Queued(s, r) && r.id == id
  }

  predicate GlobalFull(cfg: ValidatedConfig, s: State) {
    var held := QueueLoad(s.inflight);
    held.count == cfg.globalInflight.count || held.work == cfg.globalInflight.work
  }

  /** The pump runs only for an accepting owner with some global capacity left. */
  predicate PumpRoom(cfg: ValidatedConfig, s: State) {
    s.accepting && !GlobalFull(cfg, s)
  }

  /** With `r` its tenant stays within its in-flight limits, in exact integers. */
  predicate FitsTenant(cfg: ValidatedConfig, s: State, r: Request)
    requires r.tenant < |cfg.tenants|
  {
    var held := TenantLoad(s.inflight, r.tenant);
    held.count + 1 <= cfg.tenants[r.tenant].inflight.count && held.work + r.work <= cfg.tenants[r.tenant].inflight.work
  }

  /** With `r` everything in flight stays within the global limits, in exact integers. */
  predicate FitsGlobal(cfg: ValidatedConfig, s: State, r: Request) {
    var held := QueueLoad(s.inflight);
    held.count + 1 <= cfg.globalInflight.count && held.work + r.work <= cfg.globalInflight.work
  }

  /** Not known to be canceled and not past its deadline. */
  predicate Alive(s: State, r: Request) {
    r.id !in s.canceled && r.deadline > s.now
  }

  predicate AtCursor(cfg: ValidatedConfig, s: State, t: nat) {
    t == s.cursor < |s.tenants| == |cfg.tenants|
  }

  /** The queue at the cursor is non-empty, with a well-placed head. */
  predicate HeadAt(cfg: ValidatedConfig, s: State, t: nat) {
    AtCursor(cfg, s, t) && s.tenants[t].queue != [] && s.tenants[t].queue[0].tenant == t
  }

  predicate WellFormed(cfg: ValidatedConfig, sub: Submission) {
    0 < sub.bytes <= cfg.maxBodyBytes && 0 < sub.work <= cfg.maxRequestUnits
  }

  /** Why a submission is turned away at once; `None` when it is queued. */
  function AdmitRefusal(cfg: ValidatedConfig, s: State, sub: Submission): (r: Option<Decision>) {
    if !s.accepting then Some(Draining)
    else if sub.id in s.canceled then Some(CanceledQueued)
    else if sub.tenantID !in cfg.tenantByID || cfg.tenantByID[sub.tenantID] >= |s.tenants|
            || cfg.tenantByID[sub.tenantID] >= |cfg.tenants| then Some(Invalid)
    else if sub.deadline <= s.now then
      Some(if sub.clientDeadline then CanceledQueued else QueueExpired)
    else
      var t := cfg.tenantByID[sub.tenantID];
      var own := QueueLimitFailure(QueueLoad(s.tenants[t].queue), sub.bytes, sub.work, cfg.tenants[t].queue);
      if own.Some? then Some(TenantRejected(own.value)) else
        var all := QueueLimitFailure(TotalLoad(s.tenants), sub.bytes, sub.work, cfg.globalQueue);
        if all.Some? then Some(GlobalRejected(all.value)) else None
  }

  ghost predicate Enabled(cfg: ValidatedConfig, s: State, e: Event) {
    match e
    case Tick(now) => s.now <= now
    case ClientCancels(_) => true
    case Admit(sub) => WellFormed(cfg, sub) && !Known(s, sub.id)
    case Drop(r, reason) => Queued(s, r) && DropAllowed(s, r, reason)
    case Skip(t) => PumpRoom(cfg, s) && AtCursor(cfg, s, t) && s.tenants[t].queue == []
    case Fund(t) =>
      PumpRoom(cfg, s) && HeadAt(cfg, s, t) && !s.tenants[t].visitOpen && Alive(s, s.tenants[t].queue[0])
    case Block(t) =>
      PumpRoom(cfg, s) && HeadAt(cfg, s, t) && s.tenants[t].visitOpen && !FitsTenant(cfg, s, s.tenants[t].queue[0])
    case Close(t) =>
      PumpRoom(cfg, s) && HeadAt(cfg, s, t) && s.tenants[t].visitOpen && FitsTenant(cfg, s, s.tenants[t].queue[0])
      && s.tenants[t].queue[0].work > s.tenants[t].deficit
    case Dispatch(r) =>
      PumpRoom(cfg, s) && HeadAt(cfg, s, r.tenant) && s.tenants[r.tenant].queue[0] == r && s.tenants[r.tenant].visitOpen
      && FitsTenant(cfg, s, r) && r.work <= s.tenants[r.tenant].deficit && Alive(s, r) && FitsGlobal(cfg, s, r)
    case Rewind => PumpRoom(cfg, s) && TotalLoad(s.tenants).count == 0
    case Signal(r, cause) => r in s.inflight && r.id !in s.causes && (cause == ByShutdown ==> !s.accepting)
    case Release(r, _) => r in s.inflight
    case StopAccepting => true
    case CloseDrained => !s.accepting && !s.drained && TotalLoad(s.tenants).count == 0 && s.inflight == []
  }

  predicate DropAllowed(s: State, r: Request, reason: Reason) {
    match reason
    case OnCommand => true
    case OnContext => r.id in s.canceled
    case OnDeadline => r.deadline <= s.now
    case OnDrain => !s.accepting
  }

  // ---------------------------------------------------------------------
  // Effects
  // ---------------------------------------------------------------------

  function BoundedAdd(value: nat, addition: nat, maximum: nat): (r: nat) {
    if value >= maximum || addition > maximum - value then maximum else value + addition
  }

  /** A queue that empties gives up its credit and closes its visit. */
  function Settle(t: Tenant): (r: Tenant) {
    if t.queue == [] then Tenant([], 0, false) else t
  }

  function Leave(s: State, r: Request): (result: State)
    requires r.tenant < |s.tenants|
  {
    var t := s.tenants[r.tenant];
    s.(tenants := s.tenants[r.tenant := Settle(t.(queue := Without(t.queue, r)))])
  }

  function Advance(s: State): (r: State) {
    s.(cursor := if s.cursor + 1 >= |s.tenants| then 0 else s.cursor + 1)
  }

  /** The answer a removed entry's client gets; `gone` is whether it has left. */
  function DropDecision(gone: bool, r: Request, reason: Reason): (result: Decision) {
    match reason
    case OnCommand => CanceledQueued
    case OnContext => CanceledQueued
    case OnDeadline => if gone || r.clientDeadline then CanceledQueued else QueueExpired
    case OnDrain => if gone then CanceledQueued else Shutdown
  }

  function TerminalOutcome(cause: Option<Cause>, serving: Serving): (r: Terminal) {
    if cause == Some(ByShutdown) then TerminalShutdown
    else if cause == Some(ByClient) then TerminalCanceledInflight
    else match serving
         case Completed => TerminalCompleted
         case UpstreamFailed => TerminalUpstreamFailed
         case DownstreamFailed => TerminalDownstreamFailed
         case Canceled => TerminalCanceledInflight
         case InternalFailure => TerminalInternalFailure
  }

  /** A finishing client that has gone away is recorded as its own cause. */
  function CauseAtFinish(s: State, r: Request): (result: Option<Cause>) {
    if r.id in s.causes then Some(s.causes[r.id])
    else if r.id in s.canceled then Some(ByClient)
    else None
  }

  function CausesAtFinish(s: State, r: Request): (result: map<nat, Cause>) {
    if CauseAtFinish(s, r).Some? then s.causes[r.id := CauseAtFinish(s, r).value] else s.causes
  }

  function Enqueue(cfg: ValidatedConfig, s: State, sub: Submission): (r: State)
    requires AdmitRefusal(cfg, s, sub).None?
  {
    var t := cfg.tenantByID[sub.tenantID];
    var r := Request(sub.id, t, sub.bytes, sub.work, sub.deadline, sub.clientDeadline, s.sequence + 1);
    s.(sequence := s.sequence + 1,
       tenants := s.tenants[t := s.tenants[t].(queue := s.tenants[t].queue + [r])])
  }

  ghost function Apply(cfg: ValidatedConfig, s: State, e: Event): (r: State)
    requires Enabled(cfg, s, e)
  {
    match e
    case Tick(now) => s.(now := now)
    case ClientCancels(id) => s.(canceled := s.canceled + {id})
    case Admit(sub) =>
      var refusal := AdmitRefusal(cfg, s, sub);
      if refusal.Some? then s.(results := s.results[sub.id := refusal.value]) else Enqueue(cfg, s, sub)
    case Drop(r, reason) => Leave(s, r).(results := s.results[r.id := DropDecision(r.id in s.canceled, r, reason)])
    case Skip(t) => Advance(s.(tenants := s.tenants[t := Tenant([], 0, false)]))
    case Fund(t) =>
      var credit := BoundedAdd(s.tenants[t].deficit, cfg.tenants[t].quantum, cfg.deficitCap);
      s.(tenants := s.tenants[t := s.tenants[t].(deficit := credit, visitOpen := true)])
    case Block(t) => Advance(s)
    case Close(t) => Advance(s.(tenants := s.tenants[t := s.tenants[t].(visitOpen := false)]))
    case Dispatch(r) =>
      var spent := s.tenants[r.tenant].(deficit := s.tenants[r.tenant].deficit - r.work);
      var left := Leave(s.(tenants := s.tenants[r.tenant := spent]), r);
      var sent := left.(inflight := s.inflight + [r], results := s.results[r.id := Dispatched]);
      if sent.tenants[r.tenant].queue == [] then Advance(sent) else sent
    case Rewind => s.(cursor := 0)
    case Signal(r, cause) => s.(causes := s.causes[r.id := cause])
    case Release(r, serving) =>
      s.(inflight := Without(s.inflight, r),
         causes := CausesAtFinish(s, r),
         released := s.released[r.id := TerminalOutcome(CauseAtFinish(s, r), serving)])
    case StopAccepting => s.(accepting := false)
    case CloseDrained => s.(drained := true)
  }

  function Initial(cfg: ValidatedConfig): (r: State) {
    State(seq(|cfg.tenants|, _ => Tenant([], 0, false)), 0, [], map[], map[], map[], 0, true, false, 0, {})
  }

  // ---------------------------------------------------------------------
  // Runs
  // ---------------------------------------------------------------------

  /** Every event of the list is enabled where it happens. */
  ghost predicate Legal(cfg: ValidatedConfig, s: State, es: seq<Event>)
    decreases |es|, 0
  {
    es == [] ||
    (Legal(cfg, s, es[..|es| - 1]) && Enabled(cfg, Run(cfg, s, es[..|es| - 1]), es[|es| - 1]))
  }

  ghost function Run(cfg: ValidatedConfig, s: State, es: seq<Event>): (r: State)
    requires Legal(cfg, s, es)
    decreases |es|, 1
  {
    if es == [] then s
    else Apply(cfg, Run(cfg, s, es[..|es| - 1]), es[|es| - 1])
  }

  lemma RunSnoc(cfg: ValidatedConfig, s: State, es: seq<Event>, e: Event)
    requires Legal(cfg, s, es) && Enabled(cfg, Run(cfg, s, es), e)
    ensures Legal(cfg, s, es + [e])
    ensures Run(cfg, s, es + [e]) == Apply(cfg, Run(cfg, s, es), e)
  {
    hide Enabled, Apply;
    assert (es + [e])[..|es|] == es;
  }

  /** A run splits at any point. */
  lemma {:induction false} RunSplit(cfg: ValidatedConfig, s: State, xs: seq<Event>, ys: seq<Event>)
    requires Legal(cfg, s, xs + ys)
    ensures Legal(cfg, s, xs) && Legal(cfg, Run(cfg, s, xs), ys)
    ensures Run(cfg, Run(cfg, s, xs), ys) == Run(cfg, s, xs + ys)
    decreases |ys|
  {
    hide Enabled, Apply;
    if ys == [] {
      assert xs + ys == xs;
    } else {
      var k := |ys| - 1;
      assert (xs + ys)[..|xs + ys| - 1] == xs + ys[..k];
      RunSplit(cfg, s, xs, ys[..k]);
    }
  }

  lemma {:induction false} RunJoin(cfg: ValidatedConfig, s: State, xs: seq<Event>, ys: seq<Event>)
    requires Legal(cfg, s, xs) && Legal(cfg, Run(cfg, s, xs), ys)
    ensures Legal(cfg, s, xs + ys) && Run(cfg, s, xs + ys) == Run(cfg, Run(cfg, s, xs), ys)
    decreases |ys|
  {
    hide Enabled, Apply;
    if ys == [] {
      assert xs + ys == xs;
    } else {
      var k := |ys| - 1;
      RunJoin(cfg, s, xs, ys[..k]);
      assert (xs + ys)[..|xs + ys| - 1] == xs + ys[..k];
    }
  }
}
