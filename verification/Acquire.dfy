/**
 * The client side of the scheduler as a state machine over one bounded FIFO
 * mailbox: any number of concurrent callers of Acquire, Finish, RequestCancel,
 * BeginDrain, ForceCancelInflight and Close, interleaved with the owner in any
 * order. An action is one channel operation, or one event of the owner.
 */
module Acquire {
  import opened Prelude
  import opened AdmissionConfig
  import opened Scheduling
  import opened SchedulingInvariant
  import opened Fairness
  import opened FundingCost
  import opened Outcomes

  const MAILBOX_SIZE := 64

  /** One hour in nanoseconds. */
  const MAXIMUM_QUEUE_TIMEOUT := 3_600_000_000_000

  /** What a caller presents; a context may carry a deadline. */
  datatype Admission = Admission(tenantID: nat, bytes: uint64, work: uint64, timeout: int)

  datatype Context = Context(deadline: Option<int>)

  /** The decision Acquire returns beside the permit. */
  datatype Answer =
    | Answered(decision: Decision)
    | Malformed(resource: Option<Resource>)
    | CanceledBeforeStart

  /** Where one call of Acquire stands. */
  datatype Call =
    | NotCalled
    | Sending(sub: Submission)
    | Waiting
    | CancelSending(held: bool)
    | CancelWaiting(held: bool)
    | LastWait
    | Finishing
    | Returned(permit: bool, answer: Answer)

  /** The once-only completion of one permit. */
  datatype Permit =
    | Unfinished
    | FinishSending(serving: Serving)
    | FinishWaiting
    | Finished(result: TerminalResult)

  datatype Closer =
    | NotClosing
    | DrainSending
    | DrainWaiting
    | DrainedWaiting
    | StopChecking
    | StopSending
    | StopWaiting
    | Closed(stopped: bool)

  datatype Message =
    | AdmitMessage(sub: Submission)
    | CancelMessage(target: nat, fromAcquire: bool)
    | FinishMessage(entry: nat, serving: Serving)
    | DrainMessage(caller: nat)
    | ForceCancelMessage
    | StopMessage

  /** What a result channel carries: `permit` tells whether a permit comes with the decision. */
  datatype AcquireResult = AcquireResult(permit: bool, decision: Decision)

  /**
   * `left` are the clients whose context is done, which the owner learns only by
   * reading; `owner.canceled` are those it has read. `channel` holds the results sent.
   */
  datatype World = World(
    owner: State,
    running: bool,
    left: set<nat>,
    channel: map<nat, AcquireResult>,
    mailbox: seq<Message>,
    calls: map<nat, Call>,
    permits: map<nat, Permit>,
    cancelAcks: set<nat>,
    finishAcks: map<nat, TerminalResult>,
    closers: map<nat, Closer>,
    drainAcks: set<nat>)

  function CallOf(w: World, id: nat): (r: Call) {
    if id in w.calls then w.calls[id] else NotCalled
  }

  function PermitOf(w: World, id: nat): (r: Permit) {
    if id in w.permits then w.permits[id] else Unfinished
  }

  function CloserOf(w: World, c: nat): (r: Closer) {
    if c in w.closers then w.closers[c] else NotClosing
  }

  // ---------------------------------------------------------------------
  // Before the mailbox
  // ---------------------------------------------------------------------

  /** The checks that need no owner: `None` when the admission is well formed. */
  function ValidateAdmission(cfg: ValidatedConfig, a: Admission): (r: Option<Answer>) {
    if a.tenantID == 0 then Some(Malformed(None))
    else if a.bytes == 0 || a.bytes > cfg.maxBodyBytes then Some(Malformed(Some(BytesResource)))
    else if a.work == 0 || a.work > cfg.maxRequestUnits then Some(Malformed(Some(WorkResource)))
    else if a.timeout <= 0 || a.timeout > MAXIMUM_QUEUE_TIMEOUT then Some(Malformed(None))
    else if a.tenantID !in cfg.tenantByID then Some(Malformed(None))
    else None
  }

  /** How a call begins: answered at once, or with a submission to hand over. */
  function Begin(cfg: ValidatedConfig, id: nat, ctx: Option<Context>, gone: bool, a: Admission,
                 reading: int): (r: Call) {
    if ctx.None? then Returned(false, Malformed(None))
    else if ValidateAdmission(cfg, a).Some? then Returned(false, ValidateAdmission(cfg, a).value)
    else if gone then Returned(false, Answered(CanceledQueued))
    else
      var own := ctx.value.deadline.Some? && ctx.value.deadline.value <= reading + a.timeout;
      var deadline := if own then ctx.value.deadline.value else reading + a.timeout;
      if deadline <= reading then Returned(false, Answered(if own then CanceledQueued else QueueExpired))
      else Sending(Submission(id, a.tenantID, a.bytes, a.work, deadline, own))
  }

  /** What the checks ask of an admission, all at once. */
  predicate Presentable(cfg: ValidatedConfig, a: Admission) {
    && a.tenantID != 0 && a.tenantID in cfg.tenantByID
    && 0 < a.bytes <= cfg.maxBodyBytes && 0 < a.work <= cfg.maxRequestUnits
    && 0 < a.timeout <= 3_600_000_000_000
  }

  /** The answer a call gets that never reaches the mailbox. */
  predicate AtOnce(cfg: ValidatedConfig, ctx: Option<Context>, gone: bool, a: Admission, reading: int, answer: Answer) {
    if ctx.None? || a.tenantID == 0 then answer == Malformed(None)
    else if !(0 < a.bytes <= cfg.maxBodyBytes) then answer == Malformed(Some(BytesResource))
    else if !(0 < a.work <= cfg.maxRequestUnits) then answer == Malformed(Some(WorkResource))
    else if !Presentable(cfg, a) then answer == Malformed(None)
    else
      && answer == Answered(CanceledQueued)
      && (gone || (ctx.value.deadline.Some? && ctx.value.deadline.value <= reading))
  }

  /**
   * A call reaches the mailbox exactly when its admission is presentable, its client
   * is there and its own deadline, if it has one, is ahead. The entry's deadline is the
   * earlier of the client's and the queue timeout's, and the client's if they are equal.
   */
  lemma BeginIsWellFormed(cfg: ValidatedConfig, id: nat, ctx: Option<Context>, gone: bool, a: Admission, reading: int)
    ensures var c := Begin(cfg, id, ctx, gone, a, reading);
      && (c.Sending? <==>
            && ctx.Some? && Presentable(cfg, a) && !gone
            && (ctx.value.deadline.Some? ==> reading < ctx.value.deadline.value))
      && (c.Sending? ==>
            && WellFormed(cfg, c.sub)
            && c.sub.id == id && c.sub.tenantID == a.tenantID && c.sub.bytes == a.bytes && c.sub.work == a.work
            && reading < c.sub.deadline <= reading + a.timeout
            && (c.sub.clientDeadline <==>
                  ctx.value.deadline.Some? && ctx.value.deadline.value <= reading + a.timeout)
            && (c.sub.clientDeadline ==> c.sub.deadline == ctx.value.deadline.value)
            && (!c.sub.clientDeadline ==> c.sub.deadline == reading + a.timeout))
      && (!c.Sending? ==> c.Returned? && !c.permit && AtOnce(cfg, ctx, gone, a, reading, c.answer))
  {
  }

  // ---------------------------------------------------------------------
  // Actions
  // ---------------------------------------------------------------------

  /** The steps of one call of Acquire. */
  datatype AcquireStep =
    | BeginCall(ctx: Option<Context>, admission: Admission, reading: int)
    | SendAdmission
    | AbandonSend
    | SendSeesDone
    | Receive
    | SeeCanceled
    | WaitSeesDone
    | SendCancel
    | CancelSeesDone
    | CancelAnswered
    | LastReceive
    | ReturnUnstarted

  /** The steps of Finish and RequestCancel on one permit. */
  datatype PermitStep =
    | CallFinish(serving: Serving)
    | SendFinish
    | FinishSeesDone
    | FinishAnswered
    | WorkerCancel

  /** The steps of one call of Close. */
  datatype CloseStep =
    | CallClose
    | SendDrain
    | AbandonClose
    | DrainAnswered
    | SeeDrained
    | CheckStop
    | SendStop
    | StopSeesDone

  datatype Action =
    | ClientLeaves(id: nat)
    | ByCall(id: nat, step: AcquireStep)
    | ByPermit(id: nat, finish: PermitStep)
    | ByCloser(caller: nat, close: CloseStep)
    | SendOther(message: Message)
    | OwnerTakes(effect: Option<Event>)
    | OwnerMoves(event: Event)

  predicate Room(w: World) { |w.mailbox| < MAILBOX_SIZE }

  ghost predicate Waits(s: State, id: nat) {
    exists r :: Queued(s, r) && r.id == id
  }

  /** The owner's own effect of one mailbox message. */
  ghost predicate Handles(s: State, m: Message, effect: Option<Event>) {
    match m
    case AdmitMessage(sub) => effect == Some(Admit(sub))
    case CancelMessage(id, _) =>
      if Waits(s, id) then
        effect.Some? && effect.value.Drop? && effect.value.dropped.id == id && effect.value.reason == OnCommand
      else if Flying(s, id) && id !in s.causes then
        effect.Some? && effect.value.Signal? && effect.value.signaled.id == id && effect.value.cause == ByClient
      else effect.None?
    case FinishMessage(id, serving) =>
      if Flying(s, id) then
        effect.Some? && effect.value.Release? && effect.value.finished.id == id && effect.value.serving == serving
      else effect.None?
    case DrainMessage(_) => effect == Some(StopAccepting)
    case ForceCancelMessage => effect == if s.accepting then Some(StopAccepting) else None
    case StopMessage => effect.None? && IsDrained(s)
  }

  predicate CallMay(w: World, id: nat, step: AcquireStep) {
    var c := CallOf(w, id);
    match step
    case BeginCall(_, _, _) => c.NotCalled?
    case SendAdmission => c.Sending? && Room(w)
    case AbandonSend => c.Sending? && id in w.left
    case SendSeesDone => c.Sending? && !w.running
    case Receive => c.Waiting? && id in w.channel
    case SeeCanceled => c.Waiting? && id in w.left
    case WaitSeesDone => c.Waiting? && !w.running
    case SendCancel => c.CancelSending? && Room(w)
    case CancelSeesDone => c.CancelSending? && !w.running
    case CancelAnswered => c.CancelWaiting? && (id in w.cancelAcks || !w.running)
    case LastReceive => c.LastWait? && (id in w.channel || !w.running)
    case ReturnUnstarted => c.Finishing? && PermitOf(w, id).Finished?
  }

  predicate PermitMay(w: World, id: nat, step: PermitStep) {
    var c, p := CallOf(w, id), PermitOf(w, id);
    match step
    case CallFinish(serving) => p.Unfinished? && ((c.Finishing? && serving == Canceled) || (c.Returned? && c.permit))
    case SendFinish => p.FinishSending? && Room(w)
    case FinishSeesDone => p.FinishSending? && !w.running
    case FinishAnswered => p.FinishWaiting? && (id in w.finishAcks || !w.running)
    case WorkerCancel => c.Returned? && c.permit && Room(w)
  }

  predicate CloserMay(w: World, caller: nat, step: CloseStep) {
    var c := CloserOf(w, caller);
    match step
    case CallClose => c.NotClosing?
    case SendDrain => c.DrainSending? && Room(w)
    case AbandonClose => c.DrainSending? || (c.DrainedWaiting? && !w.owner.drained)
    case DrainAnswered => (c.DrainWaiting? && (caller in w.drainAcks || !w.running)) || (c.DrainSending? && !w.running)
    case SeeDrained => c.DrainedWaiting? && (w.owner.drained || !w.running)
    case CheckStop => c.StopChecking?
    case SendStop => c.StopSending? && Room(w)
    case StopSeesDone => (c.StopSending? || c.StopWaiting?) && !w.running
  }

  ghost predicate OwnerMay(cfg: ValidatedConfig, w: World, e: Event) {
    Internal(e) && Enabled(cfg, w.owner, e) && (e.ClientCancels? ==> e.id in w.left)
  }

  ghost predicate Allowed(cfg: ValidatedConfig, w: World, a: Action) {
    match a
    case ClientLeaves(_) => true
    case ByCall(id, step) => CallMay(w, id, step)
    case ByPermit(id, step) => PermitMay(w, id, step)
    case ByCloser(caller, step) => CloserMay(w, caller, step)
    case SendOther(m) => (m.DrainMessage? || m.ForceCancelMessage?) && Room(w)
    case OwnerTakes(effect) =>
      && w.running && w.mailbox != [] && Handles(w.owner, w.mailbox[0], effect)
      && (effect.Some? ==> Enabled(cfg, w.owner, effect.value))
    case OwnerMoves(e) => w.running && OwnerMay(cfg, w, e)
  }

  /** What the permit-aware receive of the first wait comes to. */
  function Received(w: World, id: nat): (r: Call)
    requires id in w.channel
  {
    var r := w.channel[id];
    if r.permit && id in w.left then CancelSending(true) else Returned(r.permit, Answered(r.decision))
  }

  /** The last receive never hands a permit to a caller that has gone away. */
  function ReceivedLast(w: World, id: nat): (r: Call) {
    if id !in w.channel then Returned(false, Answered(CanceledQueued))
    else if w.channel[id].permit then Finishing
    else Returned(false, Answered(w.channel[id].decision))
  }

  /** The receive of a call that finds the owner stopped. */
  function ReceivedStopped(w: World, id: nat): (r: Call) {
    if id in w.channel then Returned(w.channel[id].permit, Answered(w.channel[id].decision))
    else Returned(false, Answered(Draining))
  }

  /** The result channels after the owner resolved what the event resolves. */
  function Sent(cfg: ValidatedConfig, w: World, e: Event): (r: map<nat, AcquireResult>) {
    match e
    case Admit(sub) =>
      var refusal := AdmitRefusal(cfg, w.owner, sub);
      if refusal.Some? then w.channel[sub.id := AcquireResult(false, refusal.value)] else w.channel
    case Drop(r, reason) =>
      w.channel[r.id := AcquireResult(false, DropDecision(r.id in w.owner.canceled, r, reason))]
    case Dispatch(r) => w.channel[r.id := AcquireResult(true, Dispatched)]
    case _ => w.channel
  }

  function Lost(): (r: TerminalResult) { TerminalResult(TerminalInternalFailure, false) }

  /** Where a call stands after a step. */
  function CallNext(cfg: ValidatedConfig, w: World, id: nat, step: AcquireStep): (r: Call)
    requires CallMay(w, id, step)
  {
    match step
    case BeginCall(ctx, admission, reading) => Begin(cfg, id, ctx, id in w.left, admission, reading)
    case SendAdmission => Waiting
    case AbandonSend => Returned(false, Answered(CanceledQueued))
    case SendSeesDone => Returned(false, Answered(Draining))
    case Receive => Received(w, id)
    case SeeCanceled => CancelSending(false)
    case WaitSeesDone => ReceivedStopped(w, id)
    case SendCancel => CancelWaiting(CallOf(w, id).held)
    case CancelSeesDone => if CallOf(w, id).held then Finishing else LastWait
    case CancelAnswered => if CallOf(w, id).held then Finishing else LastWait
    case LastReceive => ReceivedLast(w, id)
    case ReturnUnstarted => Returned(false, CanceledBeforeStart)
  }

  function PermitNext(w: World, id: nat, step: PermitStep): (r: Permit) {
    match step
    case CallFinish(serving) => FinishSending(serving)
    case SendFinish => FinishWaiting
    case FinishSeesDone => Finished(Lost())
    case FinishAnswered => Finished(if id in w.finishAcks then w.finishAcks[id] else Lost())
    case WorkerCancel => PermitOf(w, id)
  }

  function CloserNext(w: World, step: CloseStep): (r: Closer) {
    match step
    case CallClose => if w.running then DrainSending else Closed(true)
    case SendDrain => DrainWaiting
    case AbandonClose => Closed(false)
    case DrainAnswered => if w.running then DrainedWaiting else Closed(true)
    case SeeDrained => StopChecking
    case CheckStop => if w.running then StopSending else Closed(true)
    case SendStop => StopWaiting
    case StopSeesDone => Closed(true)
  }

  /** The message an action puts into the mailbox. */
  function Posted(w: World, a: Action): (r: Option<Message>) {
    match a
    case ByCall(id, SendAdmission) =>
      if CallOf(w, id).Sending? then Some(AdmitMessage(CallOf(w, id).sub)) else None
    case ByCall(id, SendCancel) => Some(CancelMessage(id, true))
    case ByPermit(id, SendFinish) =>
      if PermitOf(w, id).FinishSending? then Some(FinishMessage(id, PermitOf(w, id).serving)) else None
    case ByPermit(id, WorkerCancel) => Some(CancelMessage(id, false))
    case ByCloser(caller, SendDrain) => Some(DrainMessage(caller))
    case ByCloser(_, SendStop) => Some(StopMessage)
    case SendOther(m) => Some(m)
    case _ => None
  }

  function Mail(w: World, a: Action): (r: World) {
    if Posted(w, a).Some? then w.(mailbox := w.mailbox + [Posted(w, a).value]) else w
  }

  /** The answer to a message; `before` is the world the owner took it in. */
  ghost function Acknowledged(w: World, before: World, m: Message, effect: Option<Event>): (r: World) {
    match m
    case CancelMessage(id, true) => w.(cancelAcks := w.cancelAcks + {id})
    case FinishMessage(id, _) =>
      w.(finishAcks := w.finishAcks[id :=
           if effect.Some? && effect.value.Release? then
             TerminalResult(TerminalOutcome(CauseAtFinish(before.owner, effect.value.finished), effect.value.serving),
               true)
           else Lost()])
    case DrainMessage(c) => w.(drainAcks := w.drainAcks + {c})
    case StopMessage => w.(running := false)
    case _ => w
  }

  /** The owner's own event and what it sends. */
  ghost function Moved(cfg: ValidatedConfig, w: World, e: Event): (r: World)
    requires Enabled(cfg, w.owner, e)
  {
    w.(owner := Apply(cfg, w.owner, e), channel := Sent(cfg, w, e))
  }

  ghost function Do(cfg: ValidatedConfig, w: World, a: Action): (r: World)
    requires Allowed(cfg, w, a)
  {
    match a
    case ClientLeaves(id) => w.(left := w.left + {id})
    case ByCall(id, step) => Mail(w, a).(calls := w.calls[id := CallNext(cfg, w, id, step)])
    case ByPermit(id, step) => Mail(w, a).(permits := w.permits[id := PermitNext(w, id, step)])
    case ByCloser(caller, step) => Mail(w, a).(closers := w.closers[caller := CloserNext(w, step)])
    case SendOther(m) => Mail(w, a)
    case OwnerTakes(effect) =>
      var acted := if effect.Some? then Moved(cfg, w, effect.value) else w;
      Acknowledged(acted, w, w.mailbox[0], effect).(mailbox := w.mailbox[1..])
    case OwnerMoves(e) => Moved(cfg, w, e)
  }

  // ---------------------------------------------------------------------
  // One caller's view
  // ---------------------------------------------------------------------

  /** What has become of an entry inside the owner. */
  datatype Status = Absent | InQueue | Refused(decision: Decision) | Aloft | Landed

  ghost function StatusOf(s: State, id: nat): (r: Status) {
    if id in s.released then Landed
    else if id in s.results then (if s.results[id] == Dispatched then Aloft else Refused(s.results[id]))
    else if Waits(s, id) then InQueue
    else Absent
  }

  datatype Tag = AdmitTag | CancelTag | FinishTag

  function TagOf(m: Message, id: nat): (r: seq<Tag>) {
    match m
    case AdmitMessage(sub) => if sub.id == id then [AdmitTag] else []
    case CancelMessage(target, true) => if target == id then [CancelTag] else []
    case FinishMessage(entry, _) => if entry == id then [FinishTag] else []
    case _ => []
  }

  /** The messages of one call that the owner has not taken yet, in order. */
  function Trail(mailbox: seq<Message>, id: nat): (r: seq<Tag>) {
    if mailbox == [] then [] else TagOf(mailbox[0], id) + Trail(mailbox[1..], id)
  }

  lemma {:induction false} TrailPosted(mailbox: seq<Message>, m: Message, id: nat)
    ensures Trail(mailbox + [m], id) == Trail(mailbox, id) + TagOf(m, id)
  {
    if mailbox == [] {
      assert [m][1..] == [];
      assert mailbox + [m] == [m];
    } else {
      assert (mailbox + [m])[1..] == mailbox[1..] + [m];
      TrailPosted(mailbox[1..], m, id);
    }
  }

  predicate Dead(st: Status) { st == Absent || st.Refused? }

  /** Before the result is taken: still in the mailbox, or already known to the owner. */
  predicate Undecided(tr: seq<Tag>, st: Status) {
    (tr == [AdmitTag] && st == Absent) || (tr == [] && st != Absent && st != Landed)
  }

  /** The same with a cancellation on its way behind the admission. */
  predicate UndecidedCanceled(tr: seq<Tag>, st: Status, acked: bool) {
    || (tr == [AdmitTag, CancelTag] && st == Absent && !acked)
    || (tr == [CancelTag] && st != Absent && st != Landed && !acked)
    || (tr == [] && (st.Refused? || st == Aloft) && acked)
  }

  /** How far the release of a permit that was handed out has come. */
  predicate PermitOk(p: Permit, tr: seq<Tag>, st: Status, ack: Option<TerminalResult>) {
    match p
    case Unfinished => tr == [] && st == Aloft && ack.None?
    case FinishSending(_) => tr == [] && st == Aloft && ack.None?
    case FinishWaiting =>
      (tr == [FinishTag] && st == Aloft && ack.None?)
      || (tr == [] && st == Landed && ack.Some? && ack.value.accountingReleased)
    case Finished(result) => tr == [] && st == Landed && ack == Some(result) && result.accountingReleased
  }

  /** What is true of one call, its messages, its entry and its permit at every moment. */
  predicate CallOk(cfg: ValidatedConfig, id: nat, c: Call, p: Permit, tr: seq<Tag>, st: Status, acked: bool,
                   ack: Option<TerminalResult>, running: bool) {
    match c
    case NotCalled => tr == [] && st == Absent && p == Unfinished && ack.None? && !acked
    case Sending(sub) =>
      tr == [] && st == Absent && p == Unfinished && ack.None? && !acked && sub.id == id && WellFormed(cfg, sub)
    case Waiting => Undecided(tr, st) && p == Unfinished && ack.None? && !acked
    case CancelSending(held) =>
      p == Unfinished && ack.None? && !acked && (if held then tr == [] && st == Aloft else Undecided(tr, st))
    case CancelWaiting(held) =>
      p == Unfinished && ack.None?
      && (if held then (tr == [CancelTag] && st == Aloft && !acked) || (tr == [] && st == Aloft && acked)
          else UndecidedCanceled(tr, st, acked))
    case LastWait =>
      p == Unfinished && ack.None? && st != Landed && st != InQueue
      && (running ==> tr == [] && st != Absent) && (st == Aloft ==> tr == [])
    case Finishing => PermitOk(p, tr, st, ack)
    case Returned(permit, answer) =>
      if permit then answer == Answered(Dispatched) && PermitOk(p, tr, st, ack)
      else if answer == CanceledBeforeStart then p.Finished? && PermitOk(p, tr, st, ack)
      else
        && answer != Answered(Dispatched) && Dead(st) && (st.Refused? ==> answer == Answered(st.decision))
        && p == Unfinished && ack.None? && (running ==> tr == [])
  }

  function AckOf(w: World, id: nat): (r: Option<TerminalResult>) {
    if id in w.finishAcks then Some(w.finishAcks[id]) else None
  }

  ghost predicate Consistent(cfg: ValidatedConfig, w: World, id: nat) {
    CallOk(cfg, id, CallOf(w, id), PermitOf(w, id), Trail(w.mailbox, id), StatusOf(w.owner, id), id in w.cancelAcks,
           AckOf(w, id), w.running)
  }

  /** The channel of one entry carries its result, with a permit exactly for a dispatch. */
  ghost predicate ChannelOf(w: World, id: nat) {
    && (id in w.channel <==> id in w.owner.results)
    && (id in w.channel ==> w.channel[id] == AcquireResult(w.owner.results[id] == Dispatched, w.owner.results[id]))
  }

  ghost predicate ChannelOk(w: World) {
    forall id :: ChannelOf(w, id)
  }

  predicate StopsLate(x: Closer) { x.StopChecking? || x.StopSending? || x.StopWaiting? }

  /** The invariant of every interleaving. */
  ghost predicate WorldOk(cfg: ValidatedConfig, w: World) {
    && Sound(cfg) && Inv(cfg, w.owner)
    && (w.owner.drained || !w.running ==> IsDrained(w.owner))
    && w.owner.canceled <= w.left && ChannelOk(w)
    && (forall m :: m in w.mailbox && m.AdmitMessage? ==> WellFormed(cfg, m.sub))
    && (StopMessage in w.mailbox ==> w.owner.drained || !w.running)
    && (forall c :: c in w.closers && StopsLate(w.closers[c]) ==> w.owner.drained || !w.running)
    && (forall c :: c in w.closers && w.closers[c] == Closed(true) ==> !w.running)
    && (forall id :: Consistent(cfg, w, id))
  }

  // ---------------------------------------------------------------------
  // How an entry's status moves
  // ---------------------------------------------------------------------

  /** The only moves: admitted or refused, removed, dispatched, released. */
  ghost predicate StatusMoves(e: Event, id: nat, before: Status, after: Status) {
    match e
    case Admit(sub) =>
      if sub.id == id then before == Absent && (after == InQueue || after.Refused?) else after == before
    case Drop(r, _) => if r.id == id then before == InQueue && after.Refused? else after == before
    case Dispatch(r) => if r.id == id then before == InQueue && after == Aloft else after == before
    case Release(r, _) => if r.id == id then before == Aloft && after == Landed else after == before
    case _ => after == before
  }

  /** The entry an event concerns, if any. */
  function Concerned(e: Event): (r: Option<nat>) {
    match e
    case Admit(sub) => Some(sub.id)
    case Drop(r, _) => Some(r.id)
    case Dispatch(r) => Some(r.id)
    case Release(r, _) => Some(r.id)
    case _ => None
  }

  lemma Arriving(cfg: ValidatedConfig, s: State, sub: Submission) returns (r: Request)
    requires AdmitRefusal(cfg, s, sub).None?
    ensures Arrives(cfg, s, Admit(sub), r) && r.id == sub.id
  {
    hide QueueLoad, TotalLoad, QueueLimitFailure;
    r := Request(sub.id, cfg.tenantByID[sub.tenantID], sub.bytes, sub.work, sub.deadline, sub.clientDeadline,
      s.sequence + 1);
  }

  lemma WaitsStep(cfg: ValidatedConfig, s: State, e: Event, id: nat)
    requires Inv(cfg, s) && Enabled(cfg, s, e)
    ensures Concerned(e) != Some(id) ==> Waits(Apply(cfg, s, e), id) == Waits(s, id)
    ensures e.Admit? && e.sub.id == id && AdmitRefusal(cfg, s, e.sub).None? ==> Waits(Apply(cfg, s, e), id)
  {
    hide Limits, Identity, Shape, Enabled, Apply, AdmitRefusal, Queued;
    StepQueued(cfg, s, e);
    var after := Apply(cfg, s, e);
    if Concerned(e) != Some(id) {
      assert forall r :: Queued(s, r) && r.id == id ==> Queued(after, r);
      assert forall r :: Queued(after, r) && r.id == id ==> Queued(s, r);
    }
    if e.Admit? && e.sub.id == id && AdmitRefusal(cfg, s, e.sub).None? {
      var r := Arriving(cfg, s, e.sub);
      assert Queued(after, r);
    }
  }

  /** Where the entry an event concerns was before it. */
  lemma ConcernedStatus(cfg: ValidatedConfig, s: State, e: Event)
    requires Inv(cfg, s) && Enabled(cfg, s, e)
    ensures e.Admit? ==> StatusOf(s, e.sub.id) == Absent
    ensures e.Drop? ==> StatusOf(s, e.dropped.id) == InQueue
    ensures e.Dispatch? ==> StatusOf(s, e.request.id) == InQueue
    ensures e.Release? ==> StatusOf(s, e.finished.id) == Aloft
  {
    hide Shape, Limits, QueueLoad, TotalLoad, TenantLoad, FitsGlobal, FitsTenant, GlobalFull, Alive, Queued;
    if e.Dispatch? {
      HeadQueued(cfg, s, e.request);
    }
  }

  /** What the event records about entries. */
  lemma Recorded(cfg: ValidatedConfig, s: State, e: Event)
    requires Inv(cfg, s) && Enabled(cfg, s, e)
    ensures var after := Apply(cfg, s, e);
      && (e.Release? ==> after.released.Keys == s.released.Keys + {e.finished.id})
      && (!e.Release? ==> after.released == s.released)
      && (e.Drop? ==>
            after.results == s.results[e.dropped.id := DropDecision(e.dropped.id in s.canceled, e.dropped, e.reason)])
      && (e.Dispatch? ==> after.results == s.results[e.request.id := Dispatched])
      && (e.Admit? ==> after.results == if AdmitRefusal(cfg, s, e.sub).Some?
                                        then s.results[e.sub.id := AdmitRefusal(cfg, s, e.sub).value] else s.results)
      && (!e.Drop? && !e.Dispatch? && !e.Admit? ==> after.results == s.results)
  {
    hide QueueLoad, TotalLoad, TenantLoad, FitsGlobal, FitsTenant, GlobalFull, Alive, Without, AdmitRefusal, BoundedAdd,
      Inv, Queued, DropDecision, CausesAtFinish, CauseAtFinish, TerminalOutcome, Known, InflightFits, Settle, HeadAt,
        AtCursor, PumpRoom;
    if e.Admit? && AdmitRefusal(cfg, s, e.sub).None? {
      EnqueueSized(cfg, s, e.sub);
    }
  }

  lemma StatusStep(cfg: ValidatedConfig, s: State, e: Event, id: nat)
    requires Inv(cfg, s) && Enabled(cfg, s, e)
    ensures StatusMoves(e, id, StatusOf(s, id), StatusOf(Apply(cfg, s, e), id))
  {
    hide Inv, Enabled, Apply, AdmitRefusal, Waits;
    Recorded(cfg, s, e);
    WaitsStep(cfg, s, e, id);
    ConcernedStatus(cfg, s, e);
    if e.Admit? {
      RefusalKinds(cfg, s, e.sub);
    }
  }

  /** Once drained the owner holds no entry. */
  lemma DrainedStatus(cfg: ValidatedConfig, s: State, id: nat)
    requires Inv(cfg, s) && IsDrained(s)
    ensures StatusOf(s, id) != InQueue && StatusOf(s, id) != Aloft
  {
    hide Shape, Limits, TotalLoad, Queued, UniqueQueued, UniqueIds, Unresolved;
    EmptyByMembers(cfg, s);
  }

  // ---------------------------------------------------------------------
  // Every action keeps every call consistent
  // ---------------------------------------------------------------------

  /** A call that an action does not touch stays as it is. */
  lemma Unaffected(cfg: ValidatedConfig, w: World, v: World, id: nat)
    requires Consistent(cfg, w, id)
    requires CallOf(v, id) == CallOf(w, id) && PermitOf(v, id) == PermitOf(w, id)
    requires Trail(v.mailbox, id) == Trail(w.mailbox, id) && StatusOf(v.owner, id) == StatusOf(w.owner, id)
    requires (id in v.cancelAcks) == (id in w.cancelAcks) && AckOf(v, id) == AckOf(w, id)
    requires v.running ==> w.running
    ensures Consistent(cfg, v, id)
  {
    hide Trail, StatusOf, WellFormed;
  }

  predicate ByCaller(a: Action, id: nat) { (a.ByCall? || a.ByPermit?) && a.id == id }

  predicate ByOwner(a: Action) { a.OwnerTakes? || a.OwnerMoves? }

  /** Everything but the owner only posts to the mailbox and moves its own call. */
  ghost predicate OwnerUntouched(w: World, v: World, a: Action, posted: Option<Message>) {
    && v.mailbox == (if posted.Some? then w.mailbox + [posted.value] else w.mailbox)
    && v.running == w.running && v.cancelAcks == w.cancelAcks && v.finishAcks == w.finishAcks
    && (forall id :: !ByCaller(a, id) ==> CallOf(v, id) == CallOf(w, id) && PermitOf(v, id) == PermitOf(w, id))
    && v.owner == w.owner && v.channel == w.channel && w.left <= v.left
  }

  lemma MailCall(w: World, a: Action, call: Call)
    requires a.ByCall?
    ensures OwnerUntouched(w, Mail(w, a).(calls := w.calls[a.id := call]), a, Posted(w, a))
  {
    hide Posted;
  }

  lemma MailPermit(w: World, a: Action, permit: Permit)
    requires a.ByPermit?
    ensures OwnerUntouched(w, Mail(w, a).(permits := w.permits[a.id := permit]), a, Posted(w, a))
  {
    hide Posted;
  }

  lemma MailCloser(w: World, a: Action, closer: Closer)
    requires a.ByCloser?
    ensures OwnerUntouched(w, Mail(w, a).(closers := w.closers[a.caller := closer]), a, Posted(w, a))
  {
    hide Posted;
  }

  lemma MailOther(w: World, a: Action)
    ensures OwnerUntouched(w, Mail(w, a), a, Posted(w, a))
  {
    hide Posted;
  }

  lemma ClientFrame(cfg: ValidatedConfig, w: World, a: Action)
    requires Allowed(cfg, w, a) && !ByOwner(a)
    ensures OwnerUntouched(w, Do(cfg, w, a), a, Posted(w, a))
  {
    hide CallMay, PermitMay, CloserMay, CallNext, PermitNext, CloserNext, Mail, OwnerUntouched;
    match a {
      case ByCall(id, step) => MailCall(w, a, CallNext(cfg, w, id, step));
      case ByPermit(id, step) => MailPermit(w, a, PermitNext(w, id, step));
      case ByCloser(caller, step) => MailCloser(w, a, CloserNext(w, step));
      case SendOther(_) => MailOther(w, a);
      case ClientLeaves(_) => SameOwner(w, Do(cfg, w, a), a);
    }
  }

  lemma SameOwner(w: World, v: World, a: Action)
    requires a.ClientLeaves? && v == w.(left := v.left) && w.left <= v.left
    ensures OwnerUntouched(w, v, a, None)
  {
  }

  /** Only its own caller, and the owner, put messages of a call in motion. */
  lemma OthersMessages(cfg: ValidatedConfig, w: World, a: Action, id: nat)
    requires Allowed(cfg, w, a) && !ByOwner(a) && !ByCaller(a, id) && Posted(w, a).Some?
    requires forall x :: Consistent(cfg, w, x)
    ensures TagOf(Posted(w, a).value, id) == []
  {
    hide Trail, StatusOf, WellFormed, Enabled, Handles;
    if a.ByCall? {
      assert Consistent(cfg, w, a.id);
    }
  }

  /** An action of somebody else. */
  lemma OtherStep(cfg: ValidatedConfig, w: World, a: Action, id: nat)
    requires Allowed(cfg, w, a) && !ByOwner(a) && !ByCaller(a, id)
    requires forall x :: Consistent(cfg, w, x)
    ensures Consistent(cfg, Do(cfg, w, a), id)
  {
    hide Trail, StatusOf, Allowed, Do, Consistent, TagOf, Posted, ByCaller;
    var v := Do(cfg, w, a);
    ClientFrame(cfg, w, a);
    if Posted(w, a).Some? {
      OthersMessages(cfg, w, a, id);
      TrailPosted(w.mailbox, Posted(w, a).value, id);
    }
    Unaffected(cfg, w, v, id);
  }

  /** The caller's own action. */
  lemma CallerStep(cfg: ValidatedConfig, w: World, a: Action, id: nat)
    requires Allowed(cfg, w, a) && ByCaller(a, id) && Consistent(cfg, w, id) && ChannelOf(w, id)
    requires !w.running ==> StatusOf(w.owner, id) != InQueue && StatusOf(w.owner, id) != Aloft
    ensures Consistent(cfg, Do(cfg, w, a), id)
  {
    hide Trail, StatusOf, WellFormed, CallOk, ChannelOf, TagOf, CallMay, PermitMay, CallNext, PermitNext, Posted,
      Handles, Enabled, Apply;
    var v := Do(cfg, w, a);
    ClientFrame(cfg, w, a);
    if Posted(w, a).Some? {
      TrailPosted(w.mailbox, Posted(w, a).value, id);
    }
    if a.ByCall? {
      CallView(cfg, w, a.step, id);
    } else {
      PermitView(cfg, w, a.finish, id);
    }
  }

  /** A step of Finish or of the worker's cancellation. */
  lemma PermitView(cfg: ValidatedConfig, w: World, step: PermitStep, id: nat)
    requires PermitMay(w, id, step) && Consistent(cfg, w, id)
    requires !w.running ==> StatusOf(w.owner, id) != InQueue && StatusOf(w.owner, id) != Aloft
    ensures var sent := Posted(w, ByPermit(id, step));
      CallOk(cfg, id, CallOf(w, id), PermitNext(w, id, step),
             if sent.Some? then Trail(w.mailbox, id) + TagOf(sent.value, id) else Trail(w.mailbox, id),
             StatusOf(w.owner, id), id in w.cancelAcks, AckOf(w, id), w.running)
  {
    hide Trail, StatusOf, WellFormed;
  }

  /** A step of Acquire itself. */
  lemma CallView(cfg: ValidatedConfig, w: World, step: AcquireStep, id: nat)
    requires CallMay(w, id, step) && Consistent(cfg, w, id) && ChannelOf(w, id)
    requires !w.running ==> StatusOf(w.owner, id) != InQueue && StatusOf(w.owner, id) != Aloft
    ensures var sent := Posted(w, ByCall(id, step));
      CallOk(cfg, id, CallNext(cfg, w, id, step), PermitOf(w, id),
             if sent.Some? then Trail(w.mailbox, id) + TagOf(sent.value, id) else Trail(w.mailbox, id),
             StatusOf(w.owner, id), id in w.cancelAcks, AckOf(w, id), w.running)
  {
    hide Trail, Waits, WellFormed, Begin;
    if step.BeginCall? {
      BeginIsWellFormed(cfg, id, step.ctx, id in w.left, step.admission, step.reading);
    }
  }

  lemma Places(cfg: ValidatedConfig, s: State, id: nat)
    requires Inv(cfg, s)
    ensures Waits(s, id) <==> StatusOf(s, id) == InQueue
    ensures Flying(s, id) <==> StatusOf(s, id) == Aloft
  {
    hide Shape, Limits, Queued;
  }

  /** An event the owner causes on its own. */
  lemma OwnerMovesStep(cfg: ValidatedConfig, w: World, e: Event, id: nat)
    requires Allowed(cfg, w, OwnerMoves(e)) && Inv(cfg, w.owner) && Consistent(cfg, w, id)
    ensures Consistent(cfg, Do(cfg, w, OwnerMoves(e)), id)
  {
    hide Trail, StatusOf, WellFormed, Inv, Enabled, Apply;
    StatusStep(cfg, w.owner, e, id);
  }

  /** A message the owner takes from the mailbox. */
  lemma OwnerTakesStep(cfg: ValidatedConfig, w: World, effect: Option<Event>, id: nat)
    requires Allowed(cfg, w, OwnerTakes(effect)) && Inv(cfg, w.owner) && Consistent(cfg, w, id)
    ensures Consistent(cfg, Do(cfg, w, OwnerTakes(effect)), id)
  {
    hide Trail, StatusOf, WellFormed, Inv, Enabled, Apply, Waits, Flying, CallOk, TagOf, IsDrained, Do, Allowed,
      Handles;
    TakenFrame(cfg, w, effect);
    var m := w.mailbox[0];
    var v := Do(cfg, w, OwnerTakes(effect));
    TrailTaken(w.mailbox, id);
    Places(cfg, w.owner, id);
    if effect.Some? {
      StatusStep(cfg, w.owner, effect.value, id);
    }
    HandledKinds(w.owner, m, effect, id);
    TakenView(cfg, id, m, effect, CallOf(w, id), PermitOf(w, id), Trail(w.mailbox[1..], id), StatusOf(w.owner, id),
              StatusOf(v.owner, id), id in w.cancelAcks, AckOf(w, id), w.running, AckOf(v, id));
  }

  /** What the answer to a message is, and what it leaves alone. */
  lemma AnswersOnly(w: World, before: World, m: Message, effect: Option<Event>)
    ensures var v := Acknowledged(w, before, m, effect);
      && v.left == w.left && v.channel == w.channel && v.owner == w.owner && v.mailbox == w.mailbox
      && v.calls == w.calls && v.permits == w.permits && v.closers == w.closers
      && v.running == (w.running && !m.StopMessage?)
      && v.cancelAcks == w.cancelAcks + (if m.CancelMessage? && m.fromAcquire then {m.target} else {})
      && v.drainAcks == w.drainAcks + (if m.DrainMessage? then {m.caller} else {})
      && (!m.FinishMessage? ==> v.finishAcks == w.finishAcks)
      && (m.FinishMessage? ==>
         m.entry in v.finishAcks && v.finishAcks == w.finishAcks[m.entry := v.finishAcks[m.entry]])
      && (m.FinishMessage? && effect.Some? && effect.value.Release? ==> v.finishAcks[m.entry].accountingReleased)
  {
    hide TerminalOutcome, CauseAtFinish;
  }

  /** What taking a message leaves alone, and what it answers. */
  lemma TakenFrame(cfg: ValidatedConfig, w: World, effect: Option<Event>)
    requires Allowed(cfg, w, OwnerTakes(effect))
    ensures w.running && w.mailbox != [] && Handles(w.owner, w.mailbox[0], effect)
    ensures var v, m := Do(cfg, w, OwnerTakes(effect)), w.mailbox[0];
      && v.mailbox == w.mailbox[1..] && v.calls == w.calls && v.permits == w.permits
      && v.running == !m.StopMessage?
      && v.cancelAcks == w.cancelAcks + (if m.CancelMessage? && m.fromAcquire then {m.target} else {})
      && (!m.FinishMessage? ==> v.finishAcks == w.finishAcks)
      && (m.FinishMessage? ==>
         m.entry in v.finishAcks && v.finishAcks == w.finishAcks[m.entry := v.finishAcks[m.entry]])
      && (m.FinishMessage? && effect.Some? && effect.value.Release? ==> v.finishAcks[m.entry].accountingReleased)
      && (effect.Some? ==> Enabled(cfg, w.owner, effect.value) && v.owner == Apply(cfg, w.owner, effect.value))
      && (effect.None? ==> v.owner == w.owner)
  {
    hide Enabled, Apply, Handles, Sent, Acknowledged;
    AnswersOnly(if effect.Some? then Moved(cfg, w, effect.value) else w, w, w.mailbox[0], effect);
  }

  /** The effect of a message as far as one entry is concerned. */
  lemma HandledKinds(s: State, m: Message, effect: Option<Event>, id: nat)
    requires Handles(s, m, effect)
    ensures m.AdmitMessage? ==> effect == Some(Admit(m.sub))
    ensures m.CancelMessage? && m.target == id && Waits(s, id) ==>
      effect.Some? && effect.value.Drop? && effect.value.dropped.id == id
    ensures m.CancelMessage? && m.target == id && !Waits(s, id) ==> effect.None? || effect.value.Signal?
    ensures m.CancelMessage? && effect.Some? ==> effect.value.Drop? || effect.value.Signal?
    ensures m.FinishMessage? && m.entry == id && Flying(s, id) ==>
      effect.Some? && effect.value.Release? && effect.value.finished.id == id
    ensures m.FinishMessage? && effect.Some? ==> effect.value.Release? && effect.value.finished.id == m.entry
    ensures m.DrainMessage? || m.ForceCancelMessage? ==> effect.None? || effect == Some(StopAccepting)
    ensures m.StopMessage? ==> effect.None?
  {
    hide Waits, Flying, IsDrained;
  }

  lemma TrailTaken(mailbox: seq<Message>, id: nat)
    requires mailbox != []
    ensures Trail(mailbox, id) == TagOf(mailbox[0], id) + Trail(mailbox[1..], id)
  {
  }

  /** The same on one call's view alone. */
  lemma TakenView(cfg: ValidatedConfig, id: nat, m: Message, effect: Option<Event>, c: Call, p: Permit, rest: seq<Tag>,
                  before: Status, after: Status, acked: bool, ack: Option<TerminalResult>, running: bool,
                  told: Option<TerminalResult>)
    requires CallOk(cfg, id, c, p, TagOf(m, id) + rest, before, acked, ack, running) && running
    requires effect.Some? ==> StatusMoves(effect.value, id, before, after)
    requires effect.None? ==> after == before
    requires m.AdmitMessage? ==> effect == Some(Admit(m.sub))
    requires m.CancelMessage? && m.target == id && before == InQueue ==>
      effect.Some? && effect.value.Drop? && effect.value.dropped.id == id
    requires m.CancelMessage? && m.target == id && before == Aloft ==> effect.None? || effect.value.Signal?
    requires m.CancelMessage? && effect.Some? ==> effect.value.Drop? || effect.value.Signal?
    requires m.FinishMessage? && m.entry == id && before == Aloft ==>
      effect.Some? && effect.value.Release? && effect.value.finished.id == id
    requires m.FinishMessage? && effect.Some? ==> effect.value.Release? && effect.value.finished.id == m.entry
    requires m.DrainMessage? || m.ForceCancelMessage? ==> effect.None? || effect == Some(StopAccepting)
    requires m.StopMessage? ==> effect.None?
    requires if m.FinishMessage? && m.entry == id then told.Some? && (effect.Some? ==> told.value.accountingReleased)
             else told == ack
    ensures CallOk(cfg, id, c, p, rest, after, acked || (m.CancelMessage? && m.fromAcquire && m.target == id), told,
                   running && !m.StopMessage?)
  {
    hide WellFormed;
    var tr := TagOf(m, id) + rest;
    assert TagOf(m, id) == [] ==> tr == rest;
    assert TagOf(m, id) != [] ==> tr[0] == TagOf(m, id)[0] && tr[1..] == rest;
  }

  // ---------------------------------------------------------------------
  // The invariant of every interleaving
  // ---------------------------------------------------------------------

  /** The owner's part of one action. */
  ghost function OwnerEvent(cfg: ValidatedConfig, w: World, a: Action): (r: Option<Event>)
    requires Allowed(cfg, w, a)
  {
    match a
    case OwnerTakes(effect) => effect
    case OwnerMoves(e) => Some(e)
    case _ => None
  }

  lemma OwnerStep(cfg: ValidatedConfig, w: World, a: Action)
    requires Allowed(cfg, w, a)
    ensures var e := OwnerEvent(cfg, w, a);
      && (e.Some? ==> Enabled(cfg, w.owner, e.value) && Do(cfg, w, a).owner == Apply(cfg, w.owner, e.value))
      && (e.None? ==> Do(cfg, w, a).owner == w.owner)
      && (Do(cfg, w, a).running == (w.running && !(a.OwnerTakes? && w.mailbox[0].StopMessage?)))
  {
    hide Enabled, IsDrained, Apply, Allowed, Do;
    if ByOwner(a) {
      OwnerActs(cfg, w, a);
    } else {
      ClientFrame(cfg, w, a);
    }
  }

  lemma OwnerActs(cfg: ValidatedConfig, w: World, a: Action)
    requires Allowed(cfg, w, a) && ByOwner(a)
    ensures w.running && (a.OwnerTakes? ==> w.mailbox != [])
    ensures var e := OwnerEvent(cfg, w, a);
      && (e.Some? ==> Enabled(cfg, w.owner, e.value) && Do(cfg, w, a).owner == Apply(cfg, w.owner, e.value))
      && (e.None? ==> Do(cfg, w, a).owner == w.owner)
    ensures Do(cfg, w, a).running == !(a.OwnerTakes? && w.mailbox[0].StopMessage?)
  {
    hide Enabled, Apply, Handles, Acknowledged;
    if a.OwnerTakes? {
      AnswersOnly(if a.effect.Some? then Moved(cfg, w, a.effect.value) else w, w, w.mailbox[0], a.effect);
    }
  }

  /** Drained owners stay drained, and only a drained owner stops or announces. */
  lemma DrainStep(cfg: ValidatedConfig, w: World, a: Action)
    requires Sound(cfg) && Inv(cfg, w.owner) && Allowed(cfg, w, a)
    requires w.owner.drained || !w.running ==> IsDrained(w.owner)
    ensures var v := Do(cfg, w, a);
      && Inv(cfg, v.owner)
      && (v.owner.drained || !v.running ==> IsDrained(v.owner))
      && (w.owner.drained ==> v.owner.drained) && (v.running ==> w.running)
  {
    hide Sound, Inv, Allowed, Do, Enabled, Apply, IsDrained;
    OwnerStep(cfg, w, a);
    var e := OwnerEvent(cfg, w, a);
    if e.Some? {
      InvStep(cfg, w.owner, e.value);
      AnnounceStep(cfg, w.owner, e.value);
      OneEvent(cfg, w.owner, e.value);
      if IsDrained(w.owner) {
        DrainIsStable(cfg, w.owner, [e.value]);
      }
    }
    if a.OwnerTakes? && w.running && !Do(cfg, w, a).running {
      StopsDrained(cfg, w, a.effect);
    }
  }

  lemma StopsDrained(cfg: ValidatedConfig, w: World, effect: Option<Event>)
    requires Allowed(cfg, w, OwnerTakes(effect)) && w.mailbox[0].StopMessage?
    ensures IsDrained(w.owner) && effect.None?
  {
    hide IsDrained, Enabled;
  }

  /** The owner sends what it decides, with a permit exactly for a dispatch, and reads only real departures. */
  lemma ChannelStep(cfg: ValidatedConfig, w: World, a: Action)
    requires Inv(cfg, w.owner) && ChannelOk(w) && w.owner.canceled <= w.left && Allowed(cfg, w, a)
    ensures ChannelOk(Do(cfg, w, a)) && Do(cfg, w, a).owner.canceled <= Do(cfg, w, a).left
  {
    hide Inv, Allowed, Do, Sent, ChannelOf, Enabled, Apply;
    var v := Do(cfg, w, a);
    if ByOwner(a) {
      OwnerActs(cfg, w, a);
      OwnerSends(cfg, w, a);
      var e := OwnerEvent(cfg, w, a);
      if e.Some? {
        Recorded(cfg, w.owner, e.value);
        CanceledStep(cfg, w.owner, e.value);
        forall id ensures ChannelOf(v, id) {
          SentOne(cfg, w, e.value, v, id);
        }
      } else {
        forall id ensures ChannelOf(v, id) {
          ChannelSame(w, v, id);
        }
      }
    } else {
      ClientFrame(cfg, w, a);
      forall id ensures ChannelOf(v, id) {
        ChannelSame(w, v, id);
      }
    }
  }

  lemma ChannelSame(w: World, v: World, id: nat)
    requires ChannelOk(w) && v.channel == w.channel && v.owner.results == w.owner.results
    ensures ChannelOf(v, id)
  {
    assert ChannelOf(w, id);
  }

  lemma OwnerSends(cfg: ValidatedConfig, w: World, a: Action)
    requires Allowed(cfg, w, a) && ByOwner(a)
    ensures var e := OwnerEvent(cfg, w, a);
      && Do(cfg, w, a).left == w.left
      && Do(cfg, w, a).channel == (if e.Some? then Sent(cfg, w, e.value) else w.channel)
      && (e.Some? && e.value.ClientCancels? ==> e.value.id in w.left)
  {
    hide Enabled, Apply, Sent, Handles, Acknowledged;
    if a.OwnerTakes? {
      var acted := if a.effect.Some? then Moved(cfg, w, a.effect.value) else w;
      AnswersOnly(acted, w, w.mailbox[0], a.effect);
      if a.effect.Some? {
        HandlesNoReading(w.owner, w.mailbox[0], a.effect.value);
      }
    }
  }

  lemma HandlesNoReading(s: State, m: Message, e: Event)
    requires Handles(s, m, Some(e))
    ensures !e.ClientCancels?
  {
    hide Waits, Flying, IsDrained;
  }

  lemma CanceledStep(cfg: ValidatedConfig, s: State, e: Event)
    requires Enabled(cfg, s, e)
    ensures Apply(cfg, s, e).canceled == s.canceled + (if e.ClientCancels? then {e.id} else {})
  {
    hide QueueLoad, TotalLoad, TenantLoad, FitsGlobal, FitsTenant, GlobalFull, Alive, Without, AdmitRefusal, BoundedAdd,
      Known, Queued, DropDecision, CausesAtFinish, CauseAtFinish, TerminalOutcome;
    if e.Admit? && AdmitRefusal(cfg, s, e.sub).None? {
      EnqueueSized(cfg, s, e.sub);
    }
  }

  lemma SentOne(cfg: ValidatedConfig, w: World, e: Event, v: World, id: nat)
    requires ChannelOk(w) && v.channel == Sent(cfg, w, e)
    requires e.Drop? ==> v.owner.results == w.owner.results[e.dropped.id :=
      DropDecision(e.dropped.id in w.owner.canceled, e.dropped, e.reason)]
    requires e.Dispatch? ==> v.owner.results == w.owner.results[e.request.id := Dispatched]
    requires e.Admit? && AdmitRefusal(cfg, w.owner, e.sub).Some? ==>
      v.owner.results == w.owner.results[e.sub.id := AdmitRefusal(cfg, w.owner, e.sub).value]
    requires e.Admit? && AdmitRefusal(cfg, w.owner, e.sub).None? ==> v.owner.results == w.owner.results
    requires !e.Drop? && !e.Dispatch? && !e.Admit? ==> v.owner.results == w.owner.results
    ensures ChannelOf(v, id)
  {
    hide AdmitRefusal;
    assert ChannelOf(w, id);
    if e.Admit? {
      RefusalKinds(cfg, w.owner, e.sub);
    }
  }

  /** Whatever enters the mailbox is well formed, and a stop only after the end of drain. */
  lemma MailboxStep(cfg: ValidatedConfig, w: World, a: Action, m: Message)
    requires WorldOk(cfg, w) && Allowed(cfg, w, a) && m in Do(cfg, w, a).mailbox
    ensures m in w.mailbox || Posted(w, a) == Some(m)
    ensures m.AdmitMessage? ==> WellFormed(cfg, m.sub)
    ensures m.StopMessage? ==> w.owner.drained || !w.running
  {
    hide WellFormed, Inv, Sound, Enabled, Apply, Trail, StatusOf, IsDrained, Handles, Do, CallOf;
    if m !in w.mailbox {
      ClientFrameOrTaken(cfg, w, a, m);
      if a.ByCall? {
        assert Consistent(cfg, w, a.id);
      }
    }
  }

  lemma ClientFrameOrTaken(cfg: ValidatedConfig, w: World, a: Action, m: Message)
    requires Allowed(cfg, w, a) && m in Do(cfg, w, a).mailbox && m !in w.mailbox
    ensures Posted(w, a) == Some(m) && !ByOwner(a)
  {
    hide CallMay, PermitMay, CloserMay, CallNext, PermitNext, CloserNext, Posted, Enabled, Apply, Sent, Handles,
      CauseAtFinish, TerminalOutcome;
    if !ByOwner(a) {
      ClientFrame(cfg, w, a);
    }
  }

  /** Only a step of Close changes where a call of Close stands. */
  lemma ClosersMove(cfg: ValidatedConfig, w: World, a: Action)
    requires Allowed(cfg, w, a)
    ensures Do(cfg, w, a).closers ==
            if a.ByCloser? then w.closers[a.caller := CloserNext(w, a.close)] else w.closers
  {
    hide CallMay, PermitMay, CloserMay, CallNext, PermitNext, CloserNext, Posted, Enabled, Apply, Sent, Handles,
      Acknowledged;
    if a.OwnerTakes? {
      AnswersOnly(if a.effect.Some? then Moved(cfg, w, a.effect.value) else w, w, w.mailbox[0], a.effect);
    }
  }

  lemma CloserStep(cfg: ValidatedConfig, w: World, a: Action, c: nat)
    requires Allowed(cfg, w, a) && c in Do(cfg, w, a).closers && StopsLate(Do(cfg, w, a).closers[c])
    ensures (c in w.closers && StopsLate(w.closers[c])) || w.owner.drained || !w.running
  {
    hide Do, CallMay, PermitMay, Enabled, Handles;
    ClosersMove(cfg, w, a);
  }

  /** Close reports success only when the owner has stopped. */
  lemma ClosedStep(cfg: ValidatedConfig, w: World, a: Action, c: nat)
    requires Allowed(cfg, w, a) && c in Do(cfg, w, a).closers && Do(cfg, w, a).closers[c] == Closed(true)
    ensures (c in w.closers && w.closers[c] == Closed(true)) || !w.running
  {
    hide Do, CallMay, PermitMay, Enabled, Handles;
    ClosersMove(cfg, w, a);
  }

  lemma CallStep(cfg: ValidatedConfig, w: World, a: Action, id: nat)
    requires WorldOk(cfg, w) && Allowed(cfg, w, a)
    ensures Consistent(cfg, Do(cfg, w, a), id)
  {
    hide Inv, Sound, Allowed, Do, Consistent, IsDrained, StatusOf, ByCaller;
    if a.OwnerMoves? {
      OwnerMovesStep(cfg, w, a.event, id);
    } else if a.OwnerTakes? {
      OwnerTakesStep(cfg, w, a.effect, id);
    } else if ByCaller(a, id) {
      if !w.running {
        DrainedStatus(cfg, w.owner, id);
      }
      assert ChannelOf(w, id);
      CallerStep(cfg, w, a, id);
    } else {
      OtherStep(cfg, w, a, id);
    }
  }

  lemma WorldStep(cfg: ValidatedConfig, w: World, a: Action)
    requires WorldOk(cfg, w) && Allowed(cfg, w, a)
    ensures WorldOk(cfg, Do(cfg, w, a))
  {
    hide Inv, Sound, Allowed, Do, Consistent, IsDrained, WellFormed, StopsLate, ChannelOk;
    var v := Do(cfg, w, a);
    DrainStep(cfg, w, a);
    ChannelStep(cfg, w, a);
    forall m | m in v.mailbox
      ensures (m.AdmitMessage? ==> WellFormed(cfg, m.sub)) && (m.StopMessage? ==> w.owner.drained || !w.running) {
      MailboxStep(cfg, w, a, m);
    }
    forall c | c in v.closers && StopsLate(v.closers[c]) ensures w.owner.drained || !w.running {
      CloserStep(cfg, w, a, c);
    }
    forall c | c in v.closers && v.closers[c] == Closed(true) ensures !v.running {
      ClosedStep(cfg, w, a, c);
    }
    forall id ensures Consistent(cfg, v, id) {
      CallStep(cfg, w, a, id);
    }
  }

  function Start(cfg: ValidatedConfig): (r: World) {
    World(Initial(cfg), true, {}, map[], [], map[], map[], {}, map[], map[], {})
  }

  ghost predicate Interleaving(cfg: ValidatedConfig, acts: seq<Action>)
    decreases |acts|, 0
  {
    acts == [] || (Interleaving(cfg, acts[..|acts| - 1])
      && Allowed(cfg, Reached(cfg, acts[..|acts| - 1]), acts[|acts| - 1]))
  }

  /** The world after an interleaving. */
  ghost function Reached(cfg: ValidatedConfig, acts: seq<Action>): (r: World)
    requires Interleaving(cfg, acts)
    decreases |acts|, 1
  {
    if acts == [] then Start(cfg) else Do(cfg, Reached(cfg, acts[..|acts| - 1]), acts[|acts| - 1])
  }

  lemma StartOk(cfg: ValidatedConfig)
    requires Sound(cfg)
    ensures WorldOk(cfg, Start(cfg))
  {
    hide Inv, Sound;
    InitialInv(cfg);
    InitialSilent(cfg);
    forall id ensures Consistent(cfg, Start(cfg), id) {
      assert forall r :: !Queued(Initial(cfg), r);
    }
  }

  lemma {:induction false} EveryInterleavingOk(cfg: ValidatedConfig, acts: seq<Action>)
    requires Sound(cfg) && Interleaving(cfg, acts)
    ensures WorldOk(cfg, Reached(cfg, acts))
    decreases |acts|
  {
    hide Sound, WorldOk, Allowed, Do;
    if acts == [] {
      StartOk(cfg);
    } else {
      EveryInterleavingOk(cfg, acts[..|acts| - 1]);
      WorldStep(cfg, Reached(cfg, acts[..|acts| - 1]), acts[|acts| - 1]);
    }
  }

  /** A client that leaves between the owner's reading and its dispatch does not stop the dispatch. */
  lemma DepartureMayBeMissed(cfg: ValidatedConfig, w: World, r: Request)
    requires Allowed(cfg, w, OwnerMoves(Dispatch(r)))
    ensures var v := Do(cfg, w, ClientLeaves(r.id));
      r.id in v.left && Allowed(cfg, v, OwnerMoves(Dispatch(r)))
  {
    hide Enabled;
  }

  // ---------------------------------------------------------------------
  // What every interleaving guarantees
  // ---------------------------------------------------------------------

  ghost predicate Live(s: State, id: nat) { Waits(s, id) || Flying(s, id) }

  /** Acquire returns a permit exactly when its decision is dispatched. */
  lemma PermitExactlyWhenDispatched(cfg: ValidatedConfig, acts: seq<Action>, id: nat)
    requires Sound(cfg) && Interleaving(cfg, acts)
    ensures var c := CallOf(Reached(cfg, acts), id);
      c.Returned? ==> (c.permit <==> c.answer == Answered(Dispatched))
  {
    hide Sound, Interleaving, Reached, Trail, StatusOf;
    EveryInterleavingOk(cfg, acts);
    assert Consistent(cfg, Reached(cfg, acts), id);
  }

  /**
   * Once Acquire has returned nil, no queued or in-flight entry of the call is
   * live, no message of it can create one, and a permit the owner had made for it
   * has already been released.
   */
  lemma NilReturnLeavesNothing(cfg: ValidatedConfig, acts: seq<Action>, id: nat)
    requires Sound(cfg) && Interleaving(cfg, acts)
    requires var c := CallOf(Reached(cfg, acts), id); c.Returned? && !c.permit
    ensures var w := Reached(cfg, acts);
      && !Live(w.owner, id)
      && (w.running ==> forall m :: m in w.mailbox && m.AdmitMessage? ==> m.sub.id != id)
      && (id in w.owner.results && w.owner.results[id] == Dispatched ==>
            id in w.owner.released && id in w.finishAcks && w.finishAcks[id].accountingReleased)
  {
    hide Sound, Interleaving, Reached, Trail, Inv, Waits, Flying;
    var w := Reached(cfg, acts);
    EveryInterleavingOk(cfg, acts);
    assert Consistent(cfg, w, id);
    Places(cfg, w.owner, id);
    forall m | w.running && m in w.mailbox && m.AdmitMessage? ensures m.sub.id != id {
      if m.sub.id == id {
        InTrail(w.mailbox, m, id);
      }
    }
  }

  lemma {:induction false} InTrail(mailbox: seq<Message>, m: Message, id: nat)
    requires m in mailbox && TagOf(m, id) != []
    ensures TagOf(m, id)[0] in Trail(mailbox, id)
  {
    if mailbox[0] != m {
      InTrail(mailbox[1..], m, id);
    }
  }

  /** The answer of a call that got no result, by the place where it returned. */
  ghost predicate WithoutResult(cfg: ValidatedConfig, w: World, id: nat, step: AcquireStep, answer: Answer) {
    match step
    case BeginCall(ctx, a, reading) => AtOnce(cfg, ctx, id in w.left, a, reading, answer)
    case AbandonSend => answer == Answered(CanceledQueued) && id in w.left
    case SendSeesDone => answer == Answered(Draining) && !w.running
    case WaitSeesDone => answer == Answered(Draining) && !w.running
    case LastReceive => answer == Answered(CanceledQueued) && !w.running
    case _ => false
  }

  lemma LeavesWithoutResult(cfg: ValidatedConfig, w: World, id: nat, step: AcquireStep)
    requires WorldOk(cfg, w) && CallMay(w, id, step) && id !in w.owner.results
    requires CallNext(cfg, w, id, step).Returned?
    ensures !CallNext(cfg, w, id, step).permit
    ensures WithoutResult(cfg, w, id, step, CallNext(cfg, w, id, step).answer)
  {
    hide Sound, Begin, Trail, Shape, Limits, Waits, AtOnce, IsDrained;
    assert Consistent(cfg, w, id) && ChannelOf(w, id);
    if step.BeginCall? {
      BeginIsWellFormed(cfg, id, step.ctx, id in w.left, step.admission, step.reading);
    }
  }

  /** A call is moved by its own steps only, and no more once it has returned. */
  lemma CallMoves(cfg: ValidatedConfig, w: World, a: Action, id: nat)
    requires Allowed(cfg, w, a)
    ensures CallOf(Do(cfg, w, a), id) == if a.ByCall? && a.id == id then CallNext(cfg, w, id, a.step) else CallOf(w, id)
    ensures CallOf(w, id).Returned? ==> CallOf(Do(cfg, w, a), id) == CallOf(w, id)
  {
    hide Enabled, Apply, Handles, Acknowledged, CallNext, PermitNext, CloserNext, PermitMay, CloserMay, Posted, Sent;
    if a.OwnerTakes? {
      AnswersOnly(if a.effect.Some? then Moved(cfg, w, a.effect.value) else w, w, w.mailbox[0], a.effect);
    }
  }

  lemma ResultsStay(cfg: ValidatedConfig, w: World, a: Action, id: nat)
    requires WorldOk(cfg, w) && Allowed(cfg, w, a) && id in w.owner.results
    ensures id in Do(cfg, w, a).owner.results
  {
    hide Inv, Sound, Allowed, Do, Enabled, Apply, IsDrained, Resolves;
    OwnerStep(cfg, w, a);
    var e := OwnerEvent(cfg, w, a);
    if e.Some? {
      ResolveStep(cfg, w.owner, e.value);
    }
  }

  /** A call without a result returned at a place that dictates its answer. */
  lemma {:induction false} NoResultAnswer(cfg: ValidatedConfig, acts: seq<Action>, id: nat) returns (k: nat)
    requires Sound(cfg) && Interleaving(cfg, acts)
    requires var w := Reached(cfg, acts); CallOf(w, id).Returned? && id !in w.owner.results
    ensures !CallOf(Reached(cfg, acts), id).permit
    ensures k < |acts| && Interleaving(cfg, acts[..k]) && acts[k].ByCall? && acts[k].id == id
    ensures WithoutResult(cfg, Reached(cfg, acts[..k]), id, acts[k].step, CallOf(Reached(cfg, acts), id).answer)
    decreases |acts|
  {
    hide Sound, WorldOk, Allowed, Do, WithoutResult, CallNext;
    var n := |acts| - 1;
    var w := Reached(cfg, acts[..n]);
    EveryInterleavingOk(cfg, acts[..n]);
    CallMoves(cfg, w, acts[n], id);
    if id in w.owner.results {
      ResultsStay(cfg, w, acts[n], id);
    }
    if CallOf(w, id).Returned? {
      k := NoResultAnswer(cfg, acts[..n], id);
      assert acts[..n][..k] == acts[..k];
    } else {
      k := n;
      MayCall(cfg, w, acts[n], id);
      LeavesWithoutResult(cfg, w, id, acts[n].step);
    }
  }

  lemma MayCall(cfg: ValidatedConfig, w: World, a: Action, id: nat)
    requires Allowed(cfg, w, a) && a.ByCall? && a.id == id
    ensures CallMay(w, id, a.step)
  {
  }

  /**
   * In every interleaving a call that has returned answers with its entry's result;
   * where that is a dispatch and no permit is returned, with the cancellation before
   * the start.
   */
  lemma AnswerIsTheResult(cfg: ValidatedConfig, acts: seq<Action>, id: nat)
    requires Sound(cfg) && Interleaving(cfg, acts)
    requires var w := Reached(cfg, acts); CallOf(w, id).Returned? && id in w.owner.results
    ensures var w := Reached(cfg, acts);
      var c := CallOf(w, id);
      && (c.permit ==> w.owner.results[id] == Dispatched)
      && c.answer == (if w.owner.results[id] == Dispatched && !c.permit then CanceledBeforeStart
                      else Answered(w.owner.results[id]))
  {
    hide Sound, Interleaving, Reached, Trail, Shape, Limits, Waits;
    EveryInterleavingOk(cfg, acts);
    assert Consistent(cfg, Reached(cfg, acts), id);
  }

  /** No permit leaks: whatever is in flight belongs to a caller that has yet to finish it. */
  lemma EveryPermitHasAHolder(cfg: ValidatedConfig, acts: seq<Action>, id: nat)
    requires Sound(cfg) && Interleaving(cfg, acts) && Flying(Reached(cfg, acts).owner, id)
    ensures var w := Reached(cfg, acts);
      && w.running && !PermitOf(w, id).Finished?
      && (var c := CallOf(w, id);
          c.Waiting? || c.CancelSending? || c.CancelWaiting? || c.LastWait? || c.Finishing?
            || (c.Returned? && c.permit))
  {
    hide Sound, Interleaving, Reached, Trail, Inv, Waits, Flying, IsDrained, StatusOf;
    var w := Reached(cfg, acts);
    EveryInterleavingOk(cfg, acts);
    assert Consistent(cfg, w, id);
    Places(cfg, w.owner, id);
    if !w.running {
      DrainedStatus(cfg, w.owner, id);
    }
  }

  /** A returned permit is a real one: its entry holds capacity until its Finish reaches the owner. */
  lemma ReturnedPermitHoldsCapacity(cfg: ValidatedConfig, acts: seq<Action>, id: nat)
    requires Sound(cfg) && Interleaving(cfg, acts)
    requires var c := CallOf(Reached(cfg, acts), id); c.Returned? && c.permit
    ensures var w := Reached(cfg, acts);
      && id in w.owner.results && w.owner.results[id] == Dispatched
      && (PermitOf(w, id).Unfinished? || PermitOf(w, id).FinishSending? ==> Flying(w.owner, id) && w.running)
      && (!Flying(w.owner, id) ==> id in w.owner.released)
  {
    hide Sound, Interleaving, Reached, Trail, Waits, Flying, IsDrained, Shape, Limits;
    var w := Reached(cfg, acts);
    EveryInterleavingOk(cfg, acts);
    assert Consistent(cfg, w, id);
    Places(cfg, w.owner, id);
    if !w.running {
      DrainedStatus(cfg, w.owner, id);
    }
  }

  /** Every completed Finish released its permit's accounting; none is lost to shutdown. */
  lemma FinishAlwaysReleases(cfg: ValidatedConfig, acts: seq<Action>, id: nat)
    requires Sound(cfg) && Interleaving(cfg, acts)
    ensures var w := Reached(cfg, acts);
      && (PermitOf(w, id).Finished? ==>
            PermitOf(w, id).result.accountingReleased && id in w.owner.released && !Flying(w.owner, id))
      && (PermitOf(w, id).FinishSending? ==> w.running)
      && (PermitOf(w, id).FinishWaiting? ==> w.running || id in w.finishAcks)
  {
    hide Sound, Interleaving, Reached, Trail, Inv, Waits, Flying, IsDrained;
    var w := Reached(cfg, acts);
    EveryInterleavingOk(cfg, acts);
    assert Consistent(cfg, w, id);
    Places(cfg, w.owner, id);
    if !w.running {
      DrainedStatus(cfg, w.owner, id);
    }
  }

  /** The terminal result of a permit is the same for every later caller. */
  lemma FinishResultIsCached(cfg: ValidatedConfig, w: World, a: Action, id: nat)
    requires Allowed(cfg, w, a) && PermitOf(w, id).Finished?
    ensures PermitOf(Do(cfg, w, a), id) == PermitOf(w, id)
  {
    hide CallMay, CloserMay, CallNext, CloserNext, Posted, Enabled, Apply, Sent, Handles, TerminalOutcome,
      CauseAtFinish;
  }

  /** The mailbox is first in, first out, so after its cancellation a call's result is ready. */
  lemma CancellationFindsResult(cfg: ValidatedConfig, acts: seq<Action>, id: nat)
    requires Sound(cfg) && Interleaving(cfg, acts) && CallOf(Reached(cfg, acts), id).LastWait?
    ensures var w := Reached(cfg, acts);
      w.running ==> id in w.owner.results && Allowed(cfg, w, ByCall(id, LastReceive))
  {
    hide Sound, Interleaving, Reached, Trail, Inv, Waits;
    EveryInterleavingOk(cfg, acts);
    assert Consistent(cfg, Reached(cfg, acts), id) && ChannelOf(Reached(cfg, acts), id);
  }

  /** Between sending and the answer a call has at most one message in the mailbox per step, in order. */
  lemma AdmissionPrecedesCancellation(cfg: ValidatedConfig, acts: seq<Action>, id: nat)
    requires Sound(cfg) && Interleaving(cfg, acts) && Reached(cfg, acts).running
    ensures Trail(Reached(cfg, acts).mailbox, id) in {[], [AdmitTag], [AdmitTag, CancelTag], [CancelTag], [FinishTag]}
  {
    hide Sound, Interleaving, Reached, Trail, Inv, Waits;
    EveryInterleavingOk(cfg, acts);
    assert Consistent(cfg, Reached(cfg, acts), id);
  }

  /**
   * The owner can always take the next message: a submission is new and well
   * formed, and a stop is only ever sent after the end of drain, from however many
   * concurrent calls of Close.
   */
  lemma OwnerNeverPanics(cfg: ValidatedConfig, acts: seq<Action>) returns (effect: Option<Event>)
    requires Sound(cfg) && Interleaving(cfg, acts)
    requires var w := Reached(cfg, acts); w.running && w.mailbox != []
    ensures var w := Reached(cfg, acts);
      && (w.mailbox[0].StopMessage? ==> IsDrained(w.owner))
      && Allowed(cfg, w, OwnerTakes(effect))
  {
    hide Sound, Interleaving, Reached, Inv, WellFormed, Enabled, Consistent;
    var w := Reached(cfg, acts);
    EveryInterleavingOk(cfg, acts);
    var m := w.mailbox[0];
    assert m in w.mailbox;
    match m {
      case AdmitMessage(sub) =>
        assert Consistent(cfg, w, sub.id);
        NewToOwner(cfg, w, sub);
        effect := Some(Admit(sub));
      case CancelMessage(id, _) => effect := CancelEffect(cfg, w.owner, id);
      case FinishMessage(id, serving) => effect := FinishEffect(cfg, w.owner, id, serving);
      case DrainMessage(_) => effect := Some(StopAccepting); StopEnabled(cfg, w.owner);
      case ForceCancelMessage =>
        effect := if w.owner.accepting then Some(StopAccepting) else None;
        StopEnabled(cfg, w.owner);
      case StopMessage => effect := None;
    }
  }

  lemma NewToOwner(cfg: ValidatedConfig, w: World, sub: Submission)
    requires Consistent(cfg, w, sub.id) && w.running && w.mailbox != [] && w.mailbox[0] == AdmitMessage(sub)
    requires WellFormed(cfg, sub)
    ensures Enabled(cfg, w.owner, Admit(sub))
  {
    hide WellFormed, Trail, Queued, StatusOf;
    TrailTaken(w.mailbox, sub.id);
    assert Trail(w.mailbox, sub.id)[0] == AdmitTag;
    assert StatusOf(w.owner, sub.id) == Absent;
    AbsentIsUnknown(w.owner, sub.id);
  }

  lemma AbsentIsUnknown(s: State, id: nat)
    requires StatusOf(s, id) == Absent
    ensures !Known(s, id)
  {
    hide Queued;
  }

  lemma CancelEffect(cfg: ValidatedConfig, s: State, id: nat) returns (effect: Option<Event>)
    requires Inv(cfg, s)
    ensures forall b :: Handles(s, CancelMessage(id, b), effect)
    ensures effect.Some? ==> Enabled(cfg, s, effect.value)
  {
    hide Inv, Queued;
    effect := None;
    if Waits(s, id) {
      var r :| Queued(s, r) && r.id == id;
      effect := Some(Drop(r, OnCommand));
    } else if Flying(s, id) && id !in s.causes {
      var r :| r in s.inflight && r.id == id;
      effect := Some(Signal(r, ByClient));
    }
  }

  lemma FinishEffect(cfg: ValidatedConfig, s: State, id: nat, serving: Serving) returns (effect: Option<Event>)
    ensures Handles(s, FinishMessage(id, serving), effect)
    ensures effect.Some? ==> Enabled(cfg, s, effect.value)
  {
    effect := None;
    if Flying(s, id) {
      var r :| r in s.inflight && r.id == id;
      effect := Some(Release(r, serving));
    }
  }

  lemma StopEnabled(cfg: ValidatedConfig, s: State)
    ensures Enabled(cfg, s, StopAccepting)
  {
  }

  /** After the owner has stopped nothing is live any more, whoever is still calling. */
  lemma StoppedOwnerHoldsNothing(cfg: ValidatedConfig, acts: seq<Action>, id: nat)
    requires Sound(cfg) && Interleaving(cfg, acts) && !Reached(cfg, acts).running
    ensures !Live(Reached(cfg, acts).owner, id)
  {
    hide Sound, Interleaving, Reached, Inv, Consistent, IsDrained, Waits, Flying, StatusOf;
    var w := Reached(cfg, acts);
    EveryInterleavingOk(cfg, acts);
    DrainedStatus(cfg, w.owner, id);
    Places(cfg, w.owner, id);
  }

  /** A successful Close has seen everything finished: nothing is queued or in flight. */
  lemma CloseMeansDrained(cfg: ValidatedConfig, acts: seq<Action>, c: nat)
    requires Sound(cfg) && Interleaving(cfg, acts) && CloserOf(Reached(cfg, acts), c) == Closed(true)
    ensures var w := Reached(cfg, acts); !w.running && IsDrained(w.owner)
  {
    hide Sound, Interleaving, Reached, Inv, Consistent, IsDrained;
    EveryInterleavingOk(cfg, acts);
  }

  /** The owner's events of an interleaving, in order. */
  ghost function OwnerHistory(cfg: ValidatedConfig, acts: seq<Action>): (r: seq<Event>)
    requires Interleaving(cfg, acts)
    decreases |acts|
  {
    if acts == [] then [] else
      var before := acts[..|acts| - 1];
      var e := OwnerEvent(cfg, Reached(cfg, before), acts[|acts| - 1]);
      OwnerHistory(cfg, before) + (if e.Some? then [e.value] else [])
  }

  /**
   * Whatever the clients do, the owner performs a legal run of scheduling events, so
   * every theorem about runs holds for the scheduler under any interleaving.
   */
  lemma {:induction false} OwnerRunsLegally(cfg: ValidatedConfig, acts: seq<Action>)
    requires Interleaving(cfg, acts)
    ensures Legal(cfg, Initial(cfg), OwnerHistory(cfg, acts))
    ensures Run(cfg, Initial(cfg), OwnerHistory(cfg, acts)) == Reached(cfg, acts).owner
    decreases |acts|
  {
    hide Allowed, Do, Enabled, Apply, Initial;
    if acts != [] {
      var before := acts[..|acts| - 1];
      OwnerRunsLegally(cfg, before);
      OwnerStep(cfg, Reached(cfg, before), acts[|acts| - 1]);
      var e := OwnerEvent(cfg, Reached(cfg, before), acts[|acts| - 1]);
      if e.Some? {
        RunSnoc(cfg, Initial(cfg), OwnerHistory(cfg, before), e.value);
      } else {
        assert OwnerHistory(cfg, acts) == OwnerHistory(cfg, before);
      }
    }
  }
}
