/**
 * Every turn of the owner class is a list of the actions that the client theorems
 * quantify over, so those theorems hold for the class under any clients.
 */
module Turns {
  import opened Prelude
  import opened AdmissionConfig
  import opened Scheduling
  import opened SchedulingInvariant
  import opened Outcomes
  import opened Acquire
  import opened Owner
  import opened OwnerLoop

  /** The owner has read as departed only clients whose context is done. */
  ghost predicate RealReadings(es: seq<Event>, left: set<nat>) {
    forall i :: 0 <= i < |es| && es[i].ClientCancels? ==> es[i].id in left
  }

  /** Nothing but the owner and its channels differs. */
  ghost predicate SameClients(w: World, v: World) {
    v == w.(owner := v.owner, channel := v.channel)
  }

  lemma OneMoreAction(cfg: ValidatedConfig, acts: seq<Action>, a: Action)
    requires Interleaving(cfg, acts) && Allowed(cfg, Reached(cfg, acts), a)
    ensures Interleaving(cfg, acts + [a]) && Reached(cfg, acts + [a]) == Do(cfg, Reached(cfg, acts), a)
  {
    hide Allowed, Do;
    assert (acts + [a])[..|acts|] == acts;
  }

  /** Events of the owner's own are actions, one by one. */
  lemma {:induction false} OwnEventsInterleave(cfg: ValidatedConfig, acts: seq<Action>, es: seq<Event>)
    returns (more: seq<Action>)
    requires Interleaving(cfg, acts) && Reached(cfg, acts).running
    requires Legal(cfg, Reached(cfg, acts).owner, es) && OnlyInternal(es) && RealReadings(es, Reached(cfg, acts).left)
    ensures acts <= more && Interleaving(cfg, more)
    ensures SameClients(Reached(cfg, acts), Reached(cfg, more))
    ensures Reached(cfg, more).owner == Run(cfg, Reached(cfg, acts).owner, es)
    decreases |es|
  {
    hide Enabled, Apply, Interleaving, Reached, Sent, Internal;
    if es == [] {
      more := acts;
    } else {
      var k := |es| - 1;
      var before := OwnEventsInterleave(cfg, acts, es[..k]);
      assert Internal(es[k]);
      var a := OwnerMoves(es[k]);
      OneMoreAction(cfg, before, a);
      more := before + [a];
    }
  }

  /** Taking the message at the head of the mailbox is one action with its effect. */
  lemma MessageInterleaves(cfg: ValidatedConfig, acts: seq<Action>, effect: Option<Event>)
    requires Interleaving(cfg, acts)
    requires var w := Reached(cfg, acts);
      && w.running && w.mailbox != [] && Handles(w.owner, w.mailbox[0], effect)
      && (effect.Some? ==> Enabled(cfg, w.owner, effect.value))
    ensures var w, more := Reached(cfg, acts), acts + [OwnerTakes(effect)];
      && Interleaving(cfg, more)
      && Reached(cfg, more).owner == (if effect.Some? then Apply(cfg, w.owner, effect.value) else w.owner)
      && Reached(cfg, more).mailbox == w.mailbox[1..] && Reached(cfg, more).left == w.left
      && Reached(cfg, more).running == !w.mailbox[0].StopMessage?
      && Reached(cfg, more).calls == w.calls && Reached(cfg, more).permits == w.permits
  {
    hide Enabled, Apply, Interleaving, Reached, Sent, Handles, Acknowledged;
    var w := Reached(cfg, acts);
    OneMoreAction(cfg, acts, OwnerTakes(effect));
    AnswersOnly(if effect.Some? then Moved(cfg, w, effect.value) else w, w, w.mailbox[0], effect);
  }

  lemma OneStep(cfg: ValidatedConfig, s: State, effect: Option<Event>)
    requires Legal(cfg, s, Steps(effect))
    ensures effect.Some? ==> Enabled(cfg, s, effect.value)
    ensures Run(cfg, s, Steps(effect)) == if effect.Some? then Apply(cfg, s, effect.value) else s
  {
    hide Enabled, Apply;
    if effect.Some? {
      assert Steps(effect)[..0] == [];
    }
  }

  /**
   * If the owner of the class stands where an interleaving has brought the owner of
   * the clients' model, and it takes the message at the head of the mailbox, then its
   * turn continues the interleaving: own events, the one effect, own events.
   */
  lemma TurnInterleaves(cfg: ValidatedConfig, acts: seq<Action>, before: seq<Event>, t: OwnerTurn)
    returns (more: seq<Action>)
    requires Interleaving(cfg, acts)
    requires Legal(cfg, Initial(cfg), before + Added(t))
    requires Legal(cfg, Initial(cfg), before) && Run(cfg, Initial(cfg), before) == Reached(cfg, acts).owner
    requires var w := Reached(cfg, acts);
      && w.running && w.mailbox != [] && Serves(cfg, before, w.mailbox[0], t)
      && RealReadings(Added(t), w.left) && (w.mailbox[0].StopMessage? ==> t.post == [])
    ensures acts <= more && Interleaving(cfg, more)
    ensures var w, v := Reached(cfg, acts), Reached(cfg, more);
      && v.owner == Run(cfg, Initial(cfg), before + Added(t))
      && v.mailbox == w.mailbox[1..] && v.running == !w.mailbox[0].StopMessage?
      && v.calls == w.calls && v.permits == w.permits && v.left == w.left
  {
    hide Legal, Run, Initial, Interleaving, Reached, Handles, Enabled, Apply, OnlyInternal, RealReadings;
    var w := Reached(cfg, acts);
    var s := w.owner;
    SplitTurn(cfg, before, t);
    ReadingsSplit(t, w.left);
    var first := OwnEventsInterleave(cfg, acts, t.pre);
    OneStep(cfg, Run(cfg, s, t.pre), t.effect);
    MessageInterleaves(cfg, first, t.effect);
    var second := first + [OwnerTakes(t.effect)];
    if w.mailbox[0].StopMessage? {
      more := second;
      EmptyRun(cfg, Reached(cfg, second).owner);
    } else {
      more := OwnEventsInterleave(cfg, second, t.post);
    }
  }

  lemma EmptyRun(cfg: ValidatedConfig, s: State)
    ensures Legal(cfg, s, []) && Run(cfg, s, []) == s
  {
  }

  lemma ReadingsSplit(t: OwnerTurn, left: set<nat>)
    requires RealReadings(Added(t), left)
    ensures RealReadings(t.pre, left) && RealReadings(t.post, left)
  {
    var all := Added(t);
    assert forall i :: 0 <= i < |t.pre| ==> all[i] == t.pre[i];
    assert forall i :: 0 <= i < |t.post| ==> all[|all| - |t.post| + i] == t.post[i];
  }

  /** Three runs in a row, taken apart. */
  lemma SplitThree(cfg: ValidatedConfig, s: State, xs: seq<Event>, ys: seq<Event>, zs: seq<Event>)
    requires Legal(cfg, s, xs + (ys + zs))
    ensures Legal(cfg, s, xs) && Legal(cfg, Run(cfg, s, xs), ys)
    ensures Legal(cfg, Run(cfg, Run(cfg, s, xs), ys), zs)
    ensures Run(cfg, Run(cfg, Run(cfg, s, xs), ys), zs) == Run(cfg, s, xs + (ys + zs))
  {
    hide Legal, Run;
    RunSplit(cfg, s, xs, ys + zs);
    RunSplit(cfg, Run(cfg, s, xs), ys, zs);
  }

  /** The three parts of a turn are runs that follow each other. */
  lemma SplitTurn(cfg: ValidatedConfig, before: seq<Event>, t: OwnerTurn)
    requires Legal(cfg, Initial(cfg), before + Added(t)) && Legal(cfg, Initial(cfg), before)
    ensures var s := Run(cfg, Initial(cfg), before);
      && Legal(cfg, s, t.pre) && Legal(cfg, Initial(cfg), before + t.pre)
      && Run(cfg, Initial(cfg), before + t.pre) == Run(cfg, s, t.pre)
      && Legal(cfg, Run(cfg, s, t.pre), Steps(t.effect))
      && Legal(cfg, Run(cfg, Run(cfg, s, t.pre), Steps(t.effect)), t.post)
      && Run(cfg, Run(cfg, Run(cfg, s, t.pre), Steps(t.effect)), t.post) == Run(cfg, Initial(cfg), before + Added(t))
  {
    hide Legal, Run, Initial, Steps;
    RunSplit(cfg, Initial(cfg), before, Added(t));
    assert Added(t) == t.pre + (Steps(t.effect) + t.post);
    SplitThree(cfg, Run(cfg, Initial(cfg), before), t.pre, Steps(t.effect), t.post);
    RunJoin(cfg, Initial(cfg), before, t.pre);
  }

  /** A turn on the timer continues an interleaving as well. */
  lemma TimerInterleaves(cfg: ValidatedConfig, acts: seq<Action>, before: seq<Event>, after: seq<Event>)
    returns (more: seq<Action>)
    requires Interleaving(cfg, acts) && Reached(cfg, acts).running
    requires Legal(cfg, Initial(cfg), after) && InternalAfter(before, after)
    requires Legal(cfg, Initial(cfg), before) && Run(cfg, Initial(cfg), before) == Reached(cfg, acts).owner
    requires RealReadings(after[|before|..], Reached(cfg, acts).left)
    ensures acts <= more && Interleaving(cfg, more)
    ensures SameClients(Reached(cfg, acts), Reached(cfg, more))
    ensures Reached(cfg, more).owner == Run(cfg, Initial(cfg), after)
  {
    hide Legal, Run, Initial, Interleaving, Reached, OnlyInternal, RealReadings;
    assert before + after[|before|..] == after;
    RunSplit(cfg, Initial(cfg), before, after[|before|..]);
    more := OwnEventsInterleave(cfg, acts, after[|before|..]);
  }
}
