/**
 * What Finish tells its caller: the terminal outcome on the owner's record, which is
 * named after the recorded cause or else after the serving the caller itself reported.
 */
module Completion {
  import opened Prelude
  import opened AdmissionConfig
  import opened Scheduling
  import opened SchedulingInvariant
  import opened Outcomes
  import opened Acquire
  import opened Answers

  /** Every answer to a finish carries the outcome on record. */
  ghost predicate AcksOk(w: World) {
    forall id :: id in w.finishAcks && w.finishAcks[id].accountingReleased ==>
      id in w.owner.released && w.finishAcks[id] == TerminalResult(w.owner.released[id], true)
  }

  lemma ReleasedOutcome(cfg: ValidatedConfig, s: State, e: Event, id: nat)
    requires Inv(cfg, s) && Enabled(cfg, s, e)
    ensures id in s.released ==> id in Apply(cfg, s, e).released && Apply(cfg, s, e).released[id] == s.released[id]
    ensures e.Release? && e.finished.id == id ==>
      id in Apply(cfg, s, e).released
      && Apply(cfg, s, e).released[id] == TerminalOutcome(CauseAtFinish(s, e.finished), e.serving)
  {
    hide Inv, TerminalOutcome, CauseAtFinish, Without, CausesAtFinish;
    if id in s.released {
      ReleasedStays(cfg, s, e, id);
    }
  }

  lemma AnswerToFinish(w: World, before: World, m: Message, effect: Option<Event>)
    requires m.FinishMessage? && effect.Some? && effect.value.Release?
    ensures m.entry in Acknowledged(w, before, m, effect).finishAcks
    ensures Acknowledged(w, before, m, effect).finishAcks[m.entry]
         == TerminalResult(TerminalOutcome(CauseAtFinish(before.owner, effect.value.finished), effect.value.serving),
           true)
  {
  }

  lemma AcksTaken(cfg: ValidatedConfig, w: World, effect: Option<Event>)
    requires Inv(cfg, w.owner) && AcksOk(w) && Allowed(cfg, w, OwnerTakes(effect))
    ensures AcksOk(Do(cfg, w, OwnerTakes(effect)))
  {
    hide Inv, Enabled, Apply, Handles, Sent, TerminalOutcome, CauseAtFinish;
    var v, m := Do(cfg, w, OwnerTakes(effect)), w.mailbox[0];
    TakenFrame(cfg, w, effect);
    forall id | id in v.finishAcks && v.finishAcks[id].accountingReleased
      ensures id in v.owner.released && v.finishAcks[id] == TerminalResult(v.owner.released[id], true)
    {
      if effect.Some? {
        ReleasedOutcome(cfg, w.owner, effect.value, id);
      }
      if m.FinishMessage? && m.entry == id {
        HandledKinds(w.owner, m, effect, id);
        if effect.Some? {
          AnswerToFinish(Moved(cfg, w, effect.value), w, m, effect);
        }
      }
    }
  }

  lemma AcksStep(cfg: ValidatedConfig, w: World, a: Action)
    requires Inv(cfg, w.owner) && AcksOk(w) && Allowed(cfg, w, a)
    ensures AcksOk(Do(cfg, w, a))
  {
    hide Inv, Enabled, Apply, Allowed;
    if a.OwnerTakes? {
      AcksTaken(cfg, w, a.effect);
    } else if a.OwnerMoves? {
      hide Sent;
      OwnerActs(cfg, w, a);
      forall id | id in w.finishAcks && w.finishAcks[id].accountingReleased
        ensures id in Do(cfg, w, a).owner.released
        ensures w.finishAcks[id] == TerminalResult(Do(cfg, w, a).owner.released[id], true)
      {
        ReleasedOutcome(cfg, w.owner, a.event, id);
      }
      assert Do(cfg, w, a).finishAcks == w.finishAcks by { MovesKeepAcks(cfg, w, a); }
    } else {
      hide Do;
      ClientFrame(cfg, w, a);
    }
  }

  lemma MovesKeepAcks(cfg: ValidatedConfig, w: World, a: Action)
    requires Allowed(cfg, w, a) && a.OwnerMoves?
    ensures Do(cfg, w, a).finishAcks == w.finishAcks
  {
    hide Enabled, Apply, Sent;
  }

  lemma {:induction false} AcksAlwaysOk(cfg: ValidatedConfig, acts: seq<Action>)
    requires Sound(cfg) && Interleaving(cfg, acts)
    ensures AcksOk(Reached(cfg, acts))
    decreases |acts|
  {
    hide Sound, WorldOk, Allowed, Do, AcksOk;
    if acts == [] {
      NoAcksYet(cfg);
    } else {
      var before := acts[..|acts| - 1];
      AcksAlwaysOk(cfg, before);
      EveryInterleavingOk(cfg, before);
      OwnerSound(cfg, Reached(cfg, before));
      AcksStep(cfg, Reached(cfg, before), acts[|acts| - 1]);
    }
  }

  lemma NoAcksYet(cfg: ValidatedConfig)
    ensures AcksOk(Start(cfg))
  {
  }

  lemma OwnerSound(cfg: ValidatedConfig, w: World)
    requires WorldOk(cfg, w)
    ensures Inv(cfg, w.owner)
  {
  }

  // ---------------------------------------------------------------------
  // Whose serving it is
  // ---------------------------------------------------------------------

  /** Somebody called Finish on this permit with this serving. */
  ghost predicate Called(acts: seq<Action>, id: nat, serving: Serving) {
    exists k :: 0 <= k < |acts| && acts[k] == ByPermit(id, CallFinish(serving))
  }

  /** Whatever is about to be told, is being told or was told to the owner is what a caller said. */
  ghost predicate AsCalled(cfg: ValidatedConfig, acts: seq<Action>)
    requires Interleaving(cfg, acts)
  {
    var w := Reached(cfg, acts);
    && (forall id :: PermitOf(w, id).FinishSending? ==> Called(acts, id, PermitOf(w, id).serving))
    && (forall m :: m in w.mailbox && m.FinishMessage? ==> Called(acts, m.entry, m.serving))
    && (forall e :: e in OwnerHistory(cfg, acts) && e.Release? ==> Called(acts, e.finished.id, e.serving))
  }

  lemma CalledStays(acts: seq<Action>, a: Action, id: nat, serving: Serving)
    ensures Called(acts, id, serving) ==> Called(acts + [a], id, serving)
    ensures a == ByPermit(id, CallFinish(serving)) ==> Called(acts + [a], id, serving)
  {
    var more := acts + [a];
    assert more[|acts|] == a;
    if k :| 0 <= k < |acts| && acts[k] == ByPermit(id, CallFinish(serving)) {
      assert more[k] == acts[k];
    }
  }

  lemma NewSending(cfg: ValidatedConfig, w: World, a: Action, id: nat)
    requires Allowed(cfg, w, a) && PermitOf(Do(cfg, w, a), id).FinishSending?
    ensures var p := PermitOf(Do(cfg, w, a), id);
      PermitOf(w, id) == p || a == ByPermit(id, CallFinish(p.serving))
  {
    hide Enabled, Apply, Handles, Sent, Acknowledged, CallNext, CloserNext, CallMay, CloserMay, Posted;
    if a.OwnerTakes? {
      AnswersOnly(if a.effect.Some? then Moved(cfg, w, a.effect.value) else w, w, w.mailbox[0], a.effect);
    }
  }

  lemma NewFinish(cfg: ValidatedConfig, w: World, a: Action, m: Message)
    requires Allowed(cfg, w, a) && m in Do(cfg, w, a).mailbox && m !in w.mailbox && m.FinishMessage?
    ensures PermitOf(w, m.entry) == FinishSending(m.serving)
  {
    hide Do, Enabled, Handles, CallMay, CloserMay;
    ClientFrameOrTaken(cfg, w, a, m);
  }

  lemma NewRelease(cfg: ValidatedConfig, w: World, a: Action, e: Event)
    requires Allowed(cfg, w, a) && OwnerEvent(cfg, w, a) == Some(e) && e.Release?
    ensures FinishMessage(e.finished.id, e.serving) in w.mailbox
  {
    hide Enabled, Waits, Flying, IsDrained;
  }

  lemma {:induction false} ServingIsTheCallers(cfg: ValidatedConfig, acts: seq<Action>)
    requires Interleaving(cfg, acts)
    ensures AsCalled(cfg, acts)
    decreases |acts|
  {
    hide Allowed, Do, Called, OwnerEvent;
    if acts != [] {
      var before, a := acts[..|acts| - 1], acts[|acts| - 1];
      assert before + [a] == acts;
      ServingIsTheCallers(cfg, before);
      var w, v := Reached(cfg, before), Reached(cfg, acts);
      forall id | PermitOf(v, id).FinishSending? ensures Called(acts, id, PermitOf(v, id).serving) {
        NewSending(cfg, w, a, id);
        CalledStays(before, a, id, PermitOf(v, id).serving);
      }
      forall m | m in v.mailbox && m.FinishMessage? ensures Called(acts, m.entry, m.serving) {
        if m !in w.mailbox {
          NewFinish(cfg, w, a, m);
        }
        CalledStays(before, a, m.entry, m.serving);
      }
      forall e | e in OwnerHistory(cfg, acts) && e.Release? ensures Called(acts, e.finished.id, e.serving) {
        if e !in OwnerHistory(cfg, before) {
          NewRelease(cfg, w, a, e);
        }
        CalledStays(before, a, e.finished.id, e.serving);
      }
    }
  }

  /**
   * Every completed Finish of every interleaving reports the terminal outcome on the
   * owner's record, and that is named after the recorded cause or, without one, after
   * a serving that a caller of Finish on this permit reported.
   */
  lemma FinishTellsTheOutcome(cfg: ValidatedConfig, acts: seq<Action>, id: nat) returns (serving: Serving)
    requires Sound(cfg) && Interleaving(cfg, acts) && PermitOf(Reached(cfg, acts), id).Finished?
    ensures var w := Reached(cfg, acts);
      && id in w.owner.released && PermitOf(w, id).result == TerminalResult(w.owner.released[id], true)
      && NamedOutcome(w.owner.causes, id, serving, w.owner.released[id])
    ensures Called(acts, id, serving)
  {
    hide Sound, Interleaving, Reached, NamedOutcome, Called, Inv;
    var w := Reached(cfg, acts);
    FinishAlwaysReleases(cfg, acts, id);
    AcksAlwaysOk(cfg, acts);
    EveryInterleavingOk(cfg, acts);
    FinishedIsAcked(cfg, w, id);
    OwnerRunsLegally(cfg, acts);
    ServingIsTheCallers(cfg, acts);
    var k := EveryOutcomeIsNamed(cfg, OwnerHistory(cfg, acts), id);
    serving := OwnerHistory(cfg, acts)[k].serving;
    assert OwnerHistory(cfg, acts)[k] in OwnerHistory(cfg, acts);
  }

  lemma FinishedIsAcked(cfg: ValidatedConfig, w: World, id: nat)
    requires WorldOk(cfg, w) && PermitOf(w, id).Finished?
    ensures AckOf(w, id) == Some(PermitOf(w, id).result)
  {
    hide Sound, Inv, Trail, StatusOf, IsDrained, WellFormed;
    assert Consistent(cfg, w, id);
  }
}
