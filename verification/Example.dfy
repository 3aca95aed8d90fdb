/** A small scheduler in motion: the hypotheses of the theorems about runs are met. */
module Example {
  import opened Prelude
  import opened AdmissionConfig
  import opened Scheduling
  import opened SchedulingInvariant
  import opened Fairness
  import opened FundingCost

  /** Two tenants with quantum one, requests of up to two units, one in-flight place. */
  function SmallConfig(): (r: ValidatedConfig) {
    var queue := QueueLimits(4, 8, 8);
    var flight := InflightLimits(1, 2);
    ValidatedConfig(2, 2, 2, queue, flight,
                    [ValidatedTenant(1, 1, queue, flight), ValidatedTenant(2, 1, queue, flight)],
                    map[1 := 0, 2 := 1])
  }

  function First(): (r: Request) { Request(7, 0, 1, 2, 9, false, 1) }

  function Second(): (r: Request) { Request(8, 1, 1, 1, 9, false, 2) }

  /** Both tenants wait. */
  function Waiting(): (r: State) {
    State([Tenant([First()], 0, false), Tenant([Second()], 0, false)], 0, [], map[], map[], map[], 2, true, false, 0,
      {})
  }

  lemma ConfigIsSound()
    ensures Sound(SmallConfig())
  {
    var v := SmallConfig();
    forall i | 0 <= i < 2 ensures SoundTenant(v, v.tenants[i]) && FundingOk(v, v.tenants[i]) {
      QuotientIs(2, 1, 2);
    }
  }

  lemma WaitingShape()
    ensures Shape(SmallConfig(), Waiting())
  {
  }

  lemma WaitingLimits()
    ensures |Waiting().tenants| == |SmallConfig().tenants| && Limits(SmallConfig(), Waiting())
  {
    var s := Waiting();
    assert s.tenants[0].queue[1..] == [] && s.tenants[1].queue[1..] == [];
    assert QueueLoad([First()]) == Load(1, 1, 2) && QueueLoad([Second()]) == Load(1, 1, 1);
    assert s.tenants[1..] == [s.tenants[1]] && s.tenants[1..][1..] == [];
  }

  lemma WaitingIdentity()
    ensures Identity(Waiting())
  {
    forall r | Queued(Waiting(), r) ensures r == First() || r == Second() {
    }
  }

  /** Both tenants stay backlogged while the first is funded, blocked by neither limit nor visit. */
  lemma HypothesesAreMet()
    ensures var cfg, s, es := SmallConfig(), Waiting(), [Fund(0)];
      && Sound(cfg) && Inv(cfg, s) && Legal(cfg, s, es)
      && Backlogged(cfg, s, es, 0) && Backlogged(cfg, s, es, 1)
      && NeverBlocked(es, 0) && NeverBlocked(es, 1)
      && Unhindered(s, 0) && Unhindered(s, 1)
      && PumpRun(es) && Fundings(es, 0) == 1
  {
    hide Sound, Shape, Limits, Identity;
    ConfigIsSound();
    WaitingShape();
    WaitingLimits();
    WaitingIdentity();
    var es := [Fund(0)];
    assert es[..0] == [];
    assert Enabled(SmallConfig(), Waiting(), Fund(0));
  }
}
