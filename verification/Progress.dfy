/**
 * Nobody gets stuck: in every interleaving each call of Acquire, Finish and Close can
 * take a step, or the owner can take a message, or the call rightly waits for the
 * scheduler. The mailbox never holds more than its capacity.
 */
module Progress {
  import opened Prelude
  import opened AdmissionConfig
  import opened Scheduling
  import opened SchedulingInvariant
  import opened Outcomes
  import opened Acquire

  // ---------------------------------------------------------------------
  // The mailbox
  // ---------------------------------------------------------------------

  lemma MailboxStaysBounded(cfg: ValidatedConfig, w: World, a: Action)
    requires Allowed(cfg, w, a) && |w.mailbox| <= 64
    ensures |Do(cfg, w, a).mailbox| <= 64
  {
    hide Do, Enabled, Handles, IsDrained;
    if a.OwnerTakes? {
      TakenFrame(cfg, w, a.effect);
    } else if a.OwnerMoves? {
      MovesKeepMail(cfg, w, a);
    } else {
      ClientFrame(cfg, w, a);
    }
  }

  lemma MovesKeepMail(cfg: ValidatedConfig, w: World, a: Action)
    requires Allowed(cfg, w, a) && a.OwnerMoves?
    ensures Do(cfg, w, a).mailbox == w.mailbox && Do(cfg, w, a).drainAcks == w.drainAcks
    ensures Do(cfg, w, a).running == w.running
  {
    hide Enabled, Apply, Sent;
  }

  lemma {:induction false} MailboxIsBounded(cfg: ValidatedConfig, acts: seq<Action>)
    requires Interleaving(cfg, acts)
    ensures |Reached(cfg, acts).mailbox| <= 64
    decreases |acts|
  {
    hide Allowed, Do;
    if acts != [] {
      MailboxIsBounded(cfg, acts[..|acts| - 1]);
      MailboxStaysBounded(cfg, Reached(cfg, acts[..|acts| - 1]), acts[|acts| - 1]);
    }
  }

  /** A sender finds room below the capacity of 64, or the owner can make some. */
  lemma RoomOrTake(cfg: ValidatedConfig, acts: seq<Action>) returns (take: Action)
    requires Sound(cfg) && Interleaving(cfg, acts) && Reached(cfg, acts).running
    ensures take.OwnerTakes?
    ensures var w := Reached(cfg, acts);
      && (|w.mailbox| < 64 <==> Room(w))
      && (w.mailbox != [] ==> Allowed(cfg, w, take))
      && (Room(w) || Allowed(cfg, w, take))
  {
    hide Sound, Interleaving, Reached, Allowed;
    var w := Reached(cfg, acts);
    MailboxIsBounded(cfg, acts);
    take := OwnerTakes(None);
    if w.mailbox != [] {
      var effect := OwnerNeverPanics(cfg, acts);
      take := OwnerTakes(effect);
    }
  }

  // ---------------------------------------------------------------------
  // Calls of Acquire
  // ---------------------------------------------------------------------

  /** A step of the permit's completion, where no message has to be waited for. */
  lemma PermitMoves(cfg: ValidatedConfig, w: World, id: nat, serving: Serving) returns (step: PermitStep)
    requires WorldOk(cfg, w)
    requires var c := CallOf(w, id); (c.Finishing? && serving == Canceled) || (c.Returned? && c.permit)
    requires PermitOf(w, id).FinishSending? && w.running ==> Room(w)
    requires PermitOf(w, id).FinishWaiting? && w.running ==> w.mailbox == []
    ensures PermitOf(w, id).Finished? || PermitMay(w, id, step)
  {
    hide Sound, Inv, IsDrained, WellFormed, StatusOf;
    assert Consistent(cfg, w, id);
    match PermitOf(w, id) {
      case Unfinished => step := CallFinish(serving);
      case FinishSending(_) => step := if w.running then SendFinish else FinishSeesDone;
      case FinishWaiting =>
        step := FinishAnswered;
        if w.running {
          NothingInMailbox(w.mailbox, id);
        }
      case Finished(_) => step := FinishAnswered;
    }
  }

  lemma NothingInMailbox(mailbox: seq<Message>, id: nat)
    requires mailbox == []
    ensures Trail(mailbox, id) == []
  {
  }

  /** A step of a call whose messages, if it waits for any, have been taken. */
  lemma CallCanMove(cfg: ValidatedConfig, w: World, id: nat) returns (a: Action)
    requires WorldOk(cfg, w) && !CallOf(w, id).NotCalled? && !CallOf(w, id).Returned?
    requires w.running ==> Room(w) && (Trail(w.mailbox, id) != [] ==> CallOf(w, id).CancelSending?)
    requires CallOf(w, id).Finishing? && PermitOf(w, id).FinishWaiting? && w.running ==> w.mailbox == []
    requires CallOf(w, id).Waiting? && w.running ==> !Waits(w.owner, id)
    ensures ByCaller(a, id) && Allowed(cfg, w, a)
  {
    hide Sound, Inv, IsDrained, WellFormed, Trail;
    assert Consistent(cfg, w, id) && ChannelOf(w, id);
    match CallOf(w, id) {
      case Sending(_) => a := ByCall(id, if w.running then SendAdmission else SendSeesDone);
      case Waiting => a := ByCall(id, if w.running then Receive else WaitSeesDone);
      case CancelSending(_) => a := ByCall(id, if w.running then SendCancel else CancelSeesDone);
      case CancelWaiting(_) => a := ByCall(id, CancelAnswered);
      case LastWait => a := ByCall(id, LastReceive);
      case Finishing =>
        var step := PermitMoves(cfg, w, id, Canceled);
        a := if PermitOf(w, id).Finished? then ByCall(id, ReturnUnstarted) else ByPermit(id, step);
    }
  }

  /**
   * Every call of Acquire that has begun and not returned can take a step, or the
   * owner can take a message, unless its entry waits in a queue of a running owner.
   */
  lemma NobodyIsStuck(cfg: ValidatedConfig, acts: seq<Action>, id: nat) returns (a: Action)
    requires Sound(cfg) && Interleaving(cfg, acts)
    requires var c := CallOf(Reached(cfg, acts), id); !c.NotCalled? && !c.Returned?
    ensures var w := Reached(cfg, acts);
      || ((ByCaller(a, id) || a.OwnerTakes?) && Allowed(cfg, w, a))
      || (CallOf(w, id).Waiting? && w.running && Waits(w.owner, id))
  {
    hide Sound, Interleaving, Reached, Allowed, WorldOk, Waits, Trail;
    var w := Reached(cfg, acts);
    EveryInterleavingOk(cfg, acts);
    a := OwnerTakes(None);
    if w.running {
      a := RoomOrTake(cfg, acts);
    }
    if w.running && w.mailbox != [] {
      return;
    }
    if w.mailbox == [] {
      NothingInMailbox(w.mailbox, id);
    }
    if !(CallOf(w, id).Waiting? && w.running && Waits(w.owner, id)) {
      a := CallCanMove(cfg, w, id);
    }
  }

  /** Every permit that was handed out can be finished with any serving, and its finish goes on. */
  lemma PermitsCanFinish(cfg: ValidatedConfig, acts: seq<Action>, id: nat, serving: Serving) returns (a: Action)
    requires Sound(cfg) && Interleaving(cfg, acts)
    requires var c := CallOf(Reached(cfg, acts), id); c.Returned? && c.permit
    requires !PermitOf(Reached(cfg, acts), id).Finished?
    ensures (a.ByPermit? || a.OwnerTakes?) && Allowed(cfg, Reached(cfg, acts), a)
    ensures PermitOf(Reached(cfg, acts), id).Unfinished? ==> a == ByPermit(id, CallFinish(serving))
  {
    hide Sound, Interleaving, Reached, WorldOk;
    var w := Reached(cfg, acts);
    EveryInterleavingOk(cfg, acts);
    if PermitOf(w, id).Unfinished? {
      a := ByPermit(id, CallFinish(serving));
      return;
    }
    if w.running {
      a := RoomOrTake(cfg, acts);
    }
    if w.running && w.mailbox != [] {
      return;
    }
    var step := PermitMoves(cfg, w, id, serving);
    a := ByPermit(id, step);
  }

  // ---------------------------------------------------------------------
  // Calls of Close
  // ---------------------------------------------------------------------

  /** A call of Close that waits for an answer has it, or its message is on its way. */
  ghost predicate ClosersHeard(w: World) {
    w.running ==>
      && (forall c :: CloserOf(w, c).DrainWaiting? ==> c in w.drainAcks || DrainMessage(c) in w.mailbox)
      && (forall c :: CloserOf(w, c).StopWaiting? ==> StopMessage in w.mailbox)
  }

  lemma TakenAcks(cfg: ValidatedConfig, w: World, effect: Option<Event>)
    requires Allowed(cfg, w, OwnerTakes(effect))
    ensures Do(cfg, w, OwnerTakes(effect)).drainAcks
         == w.drainAcks + (if w.mailbox[0].DrainMessage? then {w.mailbox[0].caller} else {})
    ensures Do(cfg, w, OwnerTakes(effect)).closers == w.closers
  {
    hide Enabled, Apply, Handles, Sent, Acknowledged;
    AnswersOnly(if effect.Some? then Moved(cfg, w, effect.value) else w, w, w.mailbox[0], effect);
  }

  lemma ClientAcks(cfg: ValidatedConfig, w: World, a: Action)
    requires Allowed(cfg, w, a) && !ByOwner(a)
    ensures Do(cfg, w, a).drainAcks == w.drainAcks
  {
    hide Enabled, Handles, CallMay, PermitMay, CloserMay, CallNext, PermitNext, CloserNext, Posted;
  }

  lemma ClosersHeardStep(cfg: ValidatedConfig, w: World, a: Action)
    requires ClosersHeard(w) && Allowed(cfg, w, a)
    ensures ClosersHeard(Do(cfg, w, a))
  {
    hide Do, Enabled, Handles, CallMay, PermitMay, CallNext, PermitNext, IsDrained;
    var v := Do(cfg, w, a);
    ClosersMove(cfg, w, a);
    if a.OwnerTakes? {
      TakenFrame(cfg, w, a.effect);
      TakenAcks(cfg, w, a.effect);
      assert forall m :: m in w.mailbox ==> m == w.mailbox[0] || m in v.mailbox;
      forall c ensures CloserOf(v, c) == CloserOf(w, c) {
      }
    } else if a.OwnerMoves? {
      MovesKeepMail(cfg, w, a);
      forall c ensures CloserOf(v, c) == CloserOf(w, c) {
      }
    } else {
      ClientFrame(cfg, w, a);
      ClientAcks(cfg, w, a);
      assert forall m :: m in w.mailbox ==> m in v.mailbox;
      if Posted(w, a).Some? {
        assert v.mailbox[|w.mailbox|] == Posted(w, a).value;
      }
      forall c | !(a.ByCloser? && a.caller == c) ensures CloserOf(v, c) == CloserOf(w, c) {
      }
    }
  }

  lemma {:induction false} ClosersAlwaysHeard(cfg: ValidatedConfig, acts: seq<Action>)
    requires Interleaving(cfg, acts)
    ensures ClosersHeard(Reached(cfg, acts))
    decreases |acts|
  {
    hide Allowed, Do;
    if acts != [] {
      ClosersAlwaysHeard(cfg, acts[..|acts| - 1]);
      ClosersHeardStep(cfg, Reached(cfg, acts[..|acts| - 1]), acts[|acts| - 1]);
    }
  }

  /**
   * Every call of Close can take a step of its own other than giving up, or the owner
   * can take a message, unless drain has begun and work is left to finish.
   */
  lemma ClosersAreNotStuck(cfg: ValidatedConfig, acts: seq<Action>, c: nat) returns (a: Action)
    requires Sound(cfg) && Interleaving(cfg, acts)
    requires var x := CloserOf(Reached(cfg, acts), c); !x.NotClosing? && !x.Closed?
    ensures var w := Reached(cfg, acts);
      || (((a.ByCloser? && a.caller == c && !a.close.AbandonClose?) || a.OwnerTakes?) && Allowed(cfg, w, a))
      || (CloserOf(w, c).DrainedWaiting? && w.running && !w.owner.drained)
  {
    hide Sound, Interleaving, Reached, WorldOk;
    var w := Reached(cfg, acts);
    EveryInterleavingOk(cfg, acts);
    ClosersAlwaysHeard(cfg, acts);
    if w.running {
      a := RoomOrTake(cfg, acts);
    }
    if w.running && w.mailbox != [] {
      return;
    }
    match CloserOf(w, c) {
      case DrainSending => a := ByCloser(c, if w.running then SendDrain else DrainAnswered);
      case DrainWaiting => a := ByCloser(c, DrainAnswered);
      case DrainedWaiting => a := ByCloser(c, SeeDrained);
      case StopChecking => a := ByCloser(c, CheckStop);
      case StopSending => a := ByCloser(c, if w.running then SendStop else StopSeesDone);
      case StopWaiting => a := ByCloser(c, StopSeesDone);
    }
  }

  /** Close fails only by giving up. */
  lemma {:induction false} CloseFailsOnlyAbandoned(cfg: ValidatedConfig, acts: seq<Action>, c: nat) returns (k: nat)
    requires Interleaving(cfg, acts) && CloserOf(Reached(cfg, acts), c) == Closed(false)
    ensures k < |acts| && acts[k] == ByCloser(c, AbandonClose)
    decreases |acts|
  {
    hide Allowed, Do;
    var n := |acts| - 1;
    var w := Reached(cfg, acts[..n]);
    ClosersMove(cfg, w, acts[n]);
    if CloserOf(w, c) == Closed(false) {
      k := CloseFailsOnlyAbandoned(cfg, acts[..n], c);
    } else {
      k := n;
    }
  }

  // ---------------------------------------------------------------------
  // Who gets a permit
  // ---------------------------------------------------------------------

  lemma PermitAtReceive(cfg: ValidatedConfig, w: World, id: nat, step: AcquireStep)
    requires WorldOk(cfg, w) && CallMay(w, id, step)
    requires CallNext(cfg, w, id, step).Returned? && CallNext(cfg, w, id, step).permit
    ensures step.Receive? && id !in w.left
  {
    hide Sound, Inv, Trail, Begin, IsDrained, WellFormed;
    assert Consistent(cfg, w, id) && ChannelOf(w, id);
    if step.BeginCall? {
      BeginIsWellFormed(cfg, id, step.ctx, id in w.left, step.admission, step.reading);
    }
    if !w.running {
      DrainedStatus(cfg, w.owner, id);
    }
  }

  /** A permit is handed to a caller only while its context is not done. */
  lemma {:induction false} PermitOnlyToThePresent(cfg: ValidatedConfig, acts: seq<Action>, id: nat) returns (k: nat)
    requires Sound(cfg) && Interleaving(cfg, acts)
    requires var c := CallOf(Reached(cfg, acts), id); c.Returned? && c.permit
    ensures k < |acts| && Interleaving(cfg, acts[..k])
    ensures acts[k] == ByCall(id, Receive) && id !in Reached(cfg, acts[..k]).left
    decreases |acts|
  {
    hide Sound, WorldOk, Allowed, Do, CallNext;
    var n := |acts| - 1;
    var w := Reached(cfg, acts[..n]);
    EveryInterleavingOk(cfg, acts[..n]);
    CallMoves(cfg, w, acts[n], id);
    if CallOf(w, id).Returned? {
      k := PermitOnlyToThePresent(cfg, acts[..n], id);
      assert acts[..n][..k] == acts[..k];
    } else {
      k := n;
      MayCall(cfg, w, acts[n], id);
      PermitAtReceive(cfg, w, id, acts[n].step);
    }
  }

  /** A call on its way out, or that gave back a permit, is one whose context is done. */
  predicate Leaving(c: Call) {
    || c.CancelSending? || c.CancelWaiting? || c.LastWait? || c.Finishing?
    || (c.Returned? && c.answer == CanceledBeforeStart)
  }

  lemma LeavingStep(cfg: ValidatedConfig, w: World, id: nat, step: AcquireStep)
    requires CallMay(w, id, step) && (Leaving(CallOf(w, id)) ==> id in w.left)
    ensures Leaving(CallNext(cfg, w, id, step)) ==> id in w.left
  {
    if step.BeginCall? {
      BeginIsWellFormed(cfg, id, step.ctx, id in w.left, step.admission, step.reading);
    }
  }

  lemma LeftGrows(cfg: ValidatedConfig, w: World, a: Action)
    requires Allowed(cfg, w, a)
    ensures w.left <= Do(cfg, w, a).left
  {
    hide Do, Allowed;
    if ByOwner(a) {
      OwnerSends(cfg, w, a);
    } else {
      ClientFrame(cfg, w, a);
    }
  }

  /** Acquire withdraws an entry or gives back a permit only for a caller whose context is done. */
  lemma {:induction false} OnlyTheDepartedLeave(cfg: ValidatedConfig, acts: seq<Action>, id: nat)
    requires Interleaving(cfg, acts)
    ensures Leaving(CallOf(Reached(cfg, acts), id)) ==> id in Reached(cfg, acts).left
    decreases |acts|
  {
    hide Allowed, Do, CallNext, Leaving;
    if acts == [] {
      NobodyLeaving(cfg, id);
    } else {
      var n := |acts| - 1;
      var w := Reached(cfg, acts[..n]);
      OnlyTheDepartedLeave(cfg, acts[..n], id);
      LeftGrows(cfg, w, acts[n]);
      CallMoves(cfg, w, acts[n], id);
      if acts[n].ByCall? && acts[n].id == id {
        MayCall(cfg, w, acts[n], id);
        LeavingStep(cfg, w, id, acts[n].step);
      }
    }
  }

  lemma NobodyLeaving(cfg: ValidatedConfig, id: nat)
    ensures !Leaving(CallOf(Start(cfg), id))
  {
  }

  // ---------------------------------------------------------------------
  // Every call is finite
  // ---------------------------------------------------------------------

  function CallStage(c: Call): (n: nat) {
    match c
    case NotCalled => 0
    case Sending(_) => 1
    case Waiting => 2
    case CancelSending(_) => 3
    case CancelWaiting(_) => 4
    case LastWait => 5
    case Finishing => 6
    case Returned(_, _) => 7
  }

  function PermitStage(p: Permit): (n: nat) {
    match p
    case Unfinished => 0
    case FinishSending(_) => 1
    case FinishWaiting => 2
    case Finished(_) => 3
  }

  function CloserStage(x: Closer): (n: nat) {
    match x
    case NotClosing => 0
    case DrainSending => 1
    case DrainWaiting => 2
    case DrainedWaiting => 3
    case StopChecking => 4
    case StopSending => 5
    case StopWaiting => 6
    case Closed(_) => 7
  }

  /** How many steps a call of Acquire, the finish of a permit and a call of Close have taken. */
  function CallSteps(acts: seq<Action>, id: nat): (n: nat) {
    if acts == [] then 0 else
      var a := acts[|acts| - 1];
      CallSteps(acts[..|acts| - 1], id) + (if a.ByCall? && a.id == id then 1 else 0)
  }

  function FinishSteps(acts: seq<Action>, id: nat): (n: nat) {
    if acts == [] then 0 else
      var a := acts[|acts| - 1];
      FinishSteps(acts[..|acts| - 1], id) + (if a.ByPermit? && a.id == id && !a.finish.WorkerCancel? then 1 else 0)
  }

  function CloseSteps(acts: seq<Action>, c: nat): (n: nat) {
    if acts == [] then 0 else
      var a := acts[|acts| - 1];
      CloseSteps(acts[..|acts| - 1], c) + (if a.ByCloser? && a.caller == c then 1 else 0)
  }

  /** Every step leads to a later stage. */
  lemma StepsAdvance(cfg: ValidatedConfig, w: World, id: nat)
    ensures forall step :: CallMay(w, id, step) ==> CallStage(CallOf(w, id)) < CallStage(CallNext(cfg, w, id, step))
    ensures forall step :: PermitMay(w, id, step) && !step.WorkerCancel? ==>
      PermitStage(PermitOf(w, id)) < PermitStage(PermitNext(w, id, step))
    ensures forall step :: PermitMay(w, id, step) && step.WorkerCancel? ==> PermitNext(w, id, step) == PermitOf(w, id)
    ensures forall step :: CloserMay(w, id, step) ==> CloserStage(CloserOf(w, id)) < CloserStage(CloserNext(w, step))
  {
    hide Begin;
    forall step | CallMay(w, id, step) ensures CallStage(CallOf(w, id)) < CallStage(CallNext(cfg, w, id, step)) {
      if step.BeginCall? {
        BeginIsWellFormed(cfg, id, step.ctx, id in w.left, step.admission, step.reading);
      }
    }
  }

  lemma PermitMoved(cfg: ValidatedConfig, w: World, a: Action, id: nat)
    requires Allowed(cfg, w, a)
    ensures PermitOf(Do(cfg, w, a), id) ==
            if a.ByPermit? && a.id == id then PermitNext(w, id, a.finish) else PermitOf(w, id)
  {
    hide Enabled, Apply, Handles, Acknowledged, CallNext, PermitNext, CloserNext, CallMay, CloserMay, Posted, Sent;
    if a.OwnerTakes? {
      AnswersOnly(if a.effect.Some? then Moved(cfg, w, a.effect.value) else w, w, w.mailbox[0], a.effect);
    }
  }

  /**
   * In every interleaving a call of Acquire or Close takes at most seven steps of its
   * own and the finish of a permit at most three, so nobody goes round in circles.
   */
  lemma {:induction false} CallsAreFinite(cfg: ValidatedConfig, acts: seq<Action>, id: nat)
    requires Interleaving(cfg, acts)
    ensures var w := Reached(cfg, acts);
      && CallSteps(acts, id) <= CallStage(CallOf(w, id)) <= 7
      && FinishSteps(acts, id) <= PermitStage(PermitOf(w, id)) <= 3
      && CloseSteps(acts, id) <= CloserStage(CloserOf(w, id)) <= 7
    decreases |acts|
  {
    hide Do, CallMay, PermitMay, CloserMay, CallNext, PermitNext, CloserNext, Enabled, Handles;
    if acts != [] {
      var n := |acts| - 1;
      var w := Reached(cfg, acts[..n]);
      CallsAreFinite(cfg, acts[..n], id);
      CallMoves(cfg, w, acts[n], id);
      PermitMoved(cfg, w, acts[n], id);
      ClosersMove(cfg, w, acts[n]);
      StepsAdvance(cfg, w, id);
    }
  }
}
