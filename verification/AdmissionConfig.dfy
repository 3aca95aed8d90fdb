/** Operator limits of the scheduler and their validation. */
module AdmissionConfig {
  import opened Prelude

  const ABSOLUTE_MAX_TENANTS := 1024
  const ABSOLUTE_MAX_QUEUED_REQUESTS := 65536
  const ABSOLUTE_MAX_INFLIGHT_REQUESTS := 4096
  const MAX_FUNDING_VISITS := 65536

  datatype QueueLimits = QueueLimits(count: uint64, bytes: uint64, work: uint64)

  datatype InflightLimits = InflightLimits(count: uint64, work: uint64)

  datatype TenantConfig = TenantConfig(id: nat, weight: uint64, queue: QueueLimits, inflight: InflightLimits)

  datatype Config = Config(
    maxBodyBytes: uint64,
    maxRequestUnits: uint64,
    baseQuantum: uint64,
    deficitCap: uint64,
    globalQueue: QueueLimits,
    globalInflight: InflightLimits,
    tenants: seq<TenantConfig>)

  datatype ValidatedTenant = ValidatedTenant(id: nat, quantum: uint64, queue: QueueLimits, inflight: InflightLimits)

  datatype ValidatedConfig = ValidatedConfig(
    maxBodyBytes: uint64,
    maxRequestUnits: uint64,
    deficitCap: uint64,
    globalQueue: QueueLimits,
    globalInflight: InflightLimits,
    tenants: seq<ValidatedTenant>,
    tenantByID: map<nat, nat>)

  /** The comparisons of the validator; what they mean for requests is proved in `Capacity`. */
  predicate QueueHoldsOne(limits: QueueLimits, maxBody: uint64, maxWork: uint64) {
    limits.count > 0 && limits.bytes >= maxBody && limits.work >= maxWork
  }

  predicate InflightHoldsOne(limits: InflightLimits, maxWork: uint64) {
    limits.count > 0 && limits.work >= maxWork
  }

  predicate QueueWithin(inner: QueueLimits, outer: QueueLimits) {
    inner.count <= outer.count && inner.bytes <= outer.bytes && inner.work <= outer.work
  }

  predicate InflightWithin(inner: InflightLimits, outer: InflightLimits) {
    inner.count <= outer.count && inner.work <= outer.work
  }

  // ---------------------------------------------------------------------
  // What validation promises, in exact integers
  // ---------------------------------------------------------------------

  /** Credit per visit, in exact integers. */
  function Quantum(c: Config, t: TenantConfig): (r: nat) {
    c.baseQuantum * t.weight
  }

  predicate TenantAcceptable(c: Config, t: TenantConfig) {
    && t.id != 0
    && t.weight > 0
    && 0 < Quantum(c, t) < TWO_64
    && 1 <= t.queue.count <= c.globalQueue.count
    && c.maxBodyBytes <= t.queue.bytes <= c.globalQueue.bytes
    && c.maxRequestUnits <= t.queue.work <= c.globalQueue.work
    && 1 <= t.inflight.count <= c.globalInflight.count
    && c.maxRequestUnits <= t.inflight.work <= c.globalInflight.work
  }

  predicate ScalarsAcceptable(c: Config) {
    && c.maxBodyBytes > 0
    && c.maxRequestUnits > 0
    && c.baseQuantum > 0
    && 0 < |c.tenants| <= 1024
    && 1 <= c.globalQueue.count <= 65536
    && c.maxBodyBytes <= c.globalQueue.bytes && c.maxRequestUnits <= c.globalQueue.work
    && 1 <= c.globalInflight.count <= 4096
    && c.maxRequestUnits <= c.globalInflight.work
  }

  /** The first `n` tenants pass and have distinct identifiers. */
  predicate TenantsAcceptable(c: Config, n: nat)
    requires n <= |c.tenants|
  {
    && (forall i :: 0 <= i < n ==> TenantAcceptable(c, c.tenants[i]))
    && (forall i, j :: 0 <= i < j < n ==> c.tenants[i].id != c.tenants[j].id)
  }

  /** The largest number of funding steps one scheduling opportunity may take. */
  function FundingBound(maxUnits: nat, minQuantum: nat, tenants: nat, inflight: nat): (r: nat)
    requires minQuantum > 0
  {
    CeilDiv(maxUnits, minQuantum) * tenants * inflight
  }

  function FundingFor(c: Config, t: TenantConfig): (r: nat) {
    var q := Quantum(c, t);
    if q == 0 then 0 else FundingBound(c.maxRequestUnits, q, |c.tenants|, c.globalInflight.count)
  }

  predicate FundingAcceptable(c: Config) {
    forall i :: 0 <= i < |c.tenants| ==> FundingFor(c, c.tenants[i]) <= 65536
  }

  /** Every quantum leaves room under the cap and needs few enough rounds. */
  predicate CreditAcceptable(c: Config) {
    && (forall i :: 0 <= i < |c.tenants| ==>
          c.maxRequestUnits - 1 + Quantum(c, c.tenants[i]) <= c.deficitCap)
    && FundingAcceptable(c)
  }

  predicate Acceptable(c: Config) {
    ScalarsAcceptable(c) && TenantsAcceptable(c, |c.tenants|) && CreditAcceptable(c)
  }

  /** The facts every scheduler theorem starts from. */
  ghost predicate Sound(v: ValidatedConfig) {
    && v.maxBodyBytes > 0
    && v.maxRequestUnits > 0
    && 0 < |v.tenants| <= 1024
    && 1 <= v.globalQueue.count <= 65536
    && v.maxBodyBytes <= v.globalQueue.bytes && v.maxRequestUnits <= v.globalQueue.work
    && 1 <= v.globalInflight.count <= 4096
    && v.maxRequestUnits <= v.globalInflight.work
    && (forall i :: 0 <= i < |v.tenants| ==> SoundTenant(v, v.tenants[i]))
    && (forall i {:trigger FundingOk(v, v.tenants[i])} :: 0 <= i < |v.tenants| ==> FundingOk(v, v.tenants[i]))
    && (forall i :: 0 <= i < |v.tenants| ==>
          v.tenants[i].id in v.tenantByID && v.tenantByID[v.tenants[i].id] == i)
    && (forall id :: id in v.tenantByID ==>
          v.tenantByID[id] < |v.tenants| && v.tenants[v.tenantByID[id]].id == id && id != 0)
  }

  ghost predicate SoundTenant(v: ValidatedConfig, t: ValidatedTenant) {
    && t.quantum > 0
    && 1 <= t.queue.count <= v.globalQueue.count
    && v.maxBodyBytes <= t.queue.bytes <= v.globalQueue.bytes
    && v.maxRequestUnits <= t.queue.work <= v.globalQueue.work
    && 1 <= t.inflight.count <= v.globalInflight.count
    && v.maxRequestUnits <= t.inflight.work <= v.globalInflight.work
    && v.maxRequestUnits - 1 + t.quantum <= v.deficitCap
  }

  /** The processor bound of one scheduling opportunity, for this tenant's quantum. */
  ghost predicate FundingOk(v: ValidatedConfig, t: ValidatedTenant) {
    t.quantum > 0
    && FundingBound(v.maxRequestUnits, t.quantum, |v.tenants|, v.globalInflight.count) <= 65536
  }

  // ---------------------------------------------------------------------
  // The validator
  // ---------------------------------------------------------------------

  function DivideRoundUp(value: uint64, divisor: uint64): (r: uint64)
    requires value > 0 && divisor > 0
  {
    RoundUpFits(value, divisor);
    1 + (value - 1) / divisor
  }

  lemma RoundUpFits(value: uint64, divisor: uint64)
    requires value > 0 && divisor > 0
    ensures 1 + (value - 1) / divisor < TWO_64
  {
    assert (value - 1) / divisor <= value - 1;
  }

  /** The shifted form that cannot overflow is the rounded-up quotient. */
  lemma DivideRoundUpIsCeiling(value: uint64, divisor: uint64)
    requires value > 0 && divisor > 0
    ensures DivideRoundUp(value, divisor) == CeilDiv(value, divisor)
  {
    var k := (value - 1) / divisor;
    assert value - 1 == k * divisor + (value - 1) % divisor;
    assert (k + 1) * divisor == k * divisor + divisor;
    assert (k + 2) * divisor == k * divisor + 2 * divisor;
    QuotientIs(value + divisor - 1, divisor, k + 1);
  }

  lemma CeilDivAntitone(value: nat, small: nat, large: nat)
    requires 0 < small <= large
    ensures CeilDiv(value, large) <= CeilDiv(value, small)
  {
    CeilDivReaches(value, small);
    CeilDivReaches(value, large);
    var a, b := CeilDiv(value, small), CeilDiv(value, large);
    if value == 0 {
      QuotientIs(large - 1, large, 0);
    } else if a < b {
      MulMono(small, large, a);
      MulMono(a, b - 1, large);
      assert false;
    }
  }

  /** Fewer tenants' rounds never exceed those of the smallest quantum. */
  lemma FundingBoundAntitone(maxUnits: nat, small: nat, large: nat, tenants: nat, inflight: nat)
    requires 0 < small <= large
    ensures FundingBound(maxUnits, large, tenants, inflight) <= FundingBound(maxUnits, small, tenants, inflight)
  {
    CeilDivAntitone(maxUnits, small, large);
    var a, b := CeilDiv(maxUnits, large), CeilDiv(maxUnits, small);
    MulMono(a, b, tenants);
    MulMono(a * tenants, b * tenants, inflight);
  }

  /** Multiplying step by step with carries rejects exactly the products over the bound. */
  method FundingVisits(rounds: uint64, tenants: uint64, inflight: uint64) returns (visits: uint64, rejected: bool)
    requires tenants > 0 && inflight > 0 && rounds > 0
    ensures rejected <==> rounds * tenants * inflight > 65536
    ensures !rejected ==> visits == rounds * tenants * inflight
  {
    Mul64Exact(rounds, tenants);
    var overflow := Mul64(rounds, tenants).0 != 0;
    visits := Mul64(rounds, tenants).1;
    if overflow {
      MulMono(1, inflight, rounds * tenants);
    } else {
      Mul64Exact(visits, inflight);
      overflow := Mul64(visits, inflight).0 != 0;
      visits := Mul64(visits, inflight).1;
    }
    rejected := overflow || visits > MAX_FUNDING_VISITS;
  }

  /** The running result of the loop over tenants. */
  datatype Registry = Registry(tenants: seq<ValidatedTenant>, tenantByID: map<nat, nat>, maximum: uint64,
                               minimum: uint64)

  ghost predicate Attained(ts: seq<ValidatedTenant>, quantum: uint64) {
    exists i :: 0 <= i < |ts| && ts[i].quantum == quantum
  }

  lemma AttainedExtends(ts: seq<ValidatedTenant>, v: ValidatedTenant, quantum: uint64)
    requires Attained(ts, quantum) || v.quantum == quantum
    ensures Attained(ts + [v], quantum)
  {
    assert (ts + [v])[|ts|] == v;
    if Attained(ts, quantum) {
      var i :| 0 <= i < |ts| && ts[i].quantum == quantum;
      assert (ts + [v])[i] == ts[i];
    }
  }

  ghost predicate Registered(c: Config, n: nat, g: Registry)
    requires n <= |c.tenants|
  {
    && |g.tenants| == n
    && (forall i :: 0 <= i < n ==> RegisteredAt(c, c.tenants[i], g.tenants[i]))
    && (forall i :: 0 <= i < n ==> 0 < g.minimum <= g.tenants[i].quantum <= g.maximum)
    && (n > 0 ==> Attained(g.tenants, g.maximum) && Attained(g.tenants, g.minimum))
    && (forall i :: 0 <= i < n ==> c.tenants[i].id in g.tenantByID && g.tenantByID[c.tenants[i].id] == i)
    && (forall id :: id in g.tenantByID ==> g.tenantByID[id] < n && c.tenants[g.tenantByID[id]].id == id)
  }

  ghost predicate RegisteredAt(c: Config, t: TenantConfig, v: ValidatedTenant) {
    v.id == t.id && v.quantum == Quantum(c, t) && v.queue == t.queue && v.inflight == t.inflight
  }

  /** One tenant's checks; the quantum comes out of the two-word product. */
  method ValidateTenant(c: Config, tenant: TenantConfig) returns (r: Result<ValidatedTenant>)
    ensures r.Ok? <==> TenantAcceptable(c, tenant)
    ensures r.Ok? ==> RegisteredAt(c, tenant, r.value)
  {
    Mul64Exact(c.baseQuantum, tenant.weight);
    var product := Mul64(c.baseQuantum, tenant.weight);
    if tenant.id == 0 || tenant.weight == 0 || product.0 != 0 || product.1 == 0
       || !QueueHoldsOne(tenant.queue, c.maxBodyBytes, c.maxRequestUnits)
       || !QueueWithin(tenant.queue, c.globalQueue)
       || !InflightHoldsOne(tenant.inflight, c.maxRequestUnits)
       || !InflightWithin(tenant.inflight, c.globalInflight) {
      return Err;
    }
    r := Ok(ValidatedTenant(tenant.id, product.1, tenant.queue, tenant.inflight));
  }

  function Extend(g: Registry, index: nat, v: ValidatedTenant): (r: Registry) {
    Registry(g.tenants + [v], g.tenantByID[v.id := index], Max(g.maximum, v.quantum), Min(g.minimum, v.quantum))
  }

  lemma AcceptableQuantum(c: Config, t: TenantConfig)
    requires TenantAcceptable(c, t)
    ensures Quantum(c, t) > 0
  {
  }

  lemma RegisterNext(c: Config, n: nat, g: Registry, v: ValidatedTenant)
    requires n < |c.tenants| && Registered(c, n, g) && TenantsAcceptable(c, n)
    requires TenantAcceptable(c, c.tenants[n]) && RegisteredAt(c, c.tenants[n], v) && v.id !in g.tenantByID
    requires n == 0 ==> g.maximum == 0 && g.minimum == TWO_64 - 1
    ensures Registered(c, n + 1, Extend(g, n, v))
  {
    hide Quantum, Attained, TenantAcceptable;
    var h := Extend(g, n, v);
    assert v.quantum > 0 by { AcceptableQuantum(c, c.tenants[n]); }
    assert forall i :: 0 <= i < n ==> h.tenants[i] == g.tenants[i];
    assert h.tenants[n] == v;
    AttainedExtends(g.tenants, v, h.maximum);
    AttainedExtends(g.tenants, v, h.minimum);
  }

  method ValidateTenants(c: Config) returns (r: Result<Registry>)
    requires |c.tenants| > 0
    ensures r.Ok? <==> TenantsAcceptable(c, |c.tenants|)
    ensures r.Ok? ==> Registered(c, |c.tenants|, r.value)
  {
    hide Quantum;
    var g := Registry([], map[], 0, TWO_64 - 1);
    for index := 0 to |c.tenants|
      invariant TenantsAcceptable(c, index)
      invariant Registered(c, index, g)
      invariant index == 0 ==> g.maximum == 0 && g.minimum == TWO_64 - 1
    {
      var tenant := c.tenants[index];
      var checked := ValidateTenant(c, tenant);
      if tenant.id in g.tenantByID || checked.Err? {
        return Err;
      }
      RegisterNext(c, index, g, checked.value);
      g := Extend(g, index, checked.value);
    }
    r := Ok(g);
  }

  /** The two bounds over all tenants, checked through the extreme quanta alone. */
  method ValidateCredit(c: Config, g: Registry) returns (accepted: bool)
    requires ScalarsAcceptable(c) && TenantsAcceptable(c, |c.tenants|) && Registered(c, |c.tenants|, g)
    ensures accepted <==> CreditAcceptable(c)
  {
    hide Quantum, FundingAcceptable;
    ghost var high :| 0 <= high < |g.tenants| && g.tenants[high].quantum == g.maximum;
    assert RegisteredAt(c, c.tenants[high], g.tenants[high]);
    FundingByMinimum(c, g);
    if c.maxRequestUnits - 1 + g.maximum >= TWO_64 || c.deficitCap < c.maxRequestUnits - 1 + g.maximum {
      return false;
    }
    DivideRoundUpIsCeiling(c.maxRequestUnits, g.minimum);
    var rounds := DivideRoundUp(c.maxRequestUnits, g.minimum);
    var visits, rejected := FundingVisits(rounds, |c.tenants|, c.globalInflight.count);
    accepted := !rejected;
  }

  /** The smallest quantum alone decides the funding bound of every tenant. */
  lemma FundingByMinimum(c: Config, g: Registry)
    requires ScalarsAcceptable(c) && TenantsAcceptable(c, |c.tenants|) && Registered(c, |c.tenants|, g)
    ensures g.minimum > 0
    ensures FundingBound(c.maxRequestUnits, g.minimum, |c.tenants|, c.globalInflight.count) <= 65536 <==>
            FundingAcceptable(c)
  {
    hide Quantum;
    var low :| 0 <= low < |g.tenants| && g.tenants[low].quantum == g.minimum;
    assert RegisteredAt(c, c.tenants[low], g.tenants[low]);
    forall i | 0 <= i < |c.tenants|
      ensures FundingFor(c, c.tenants[i]) <= FundingFor(c, c.tenants[low])
    {
      assert RegisteredAt(c, c.tenants[i], g.tenants[i]);
      FundingBoundAntitone(c.maxRequestUnits, g.minimum, g.tenants[i].quantum, |c.tenants|, c.globalInflight.count);
    }
  }

  /**
   * Validation accepts exactly the configurations whose bounds hold in exact
   * integers, so no machine overflow is mistaken for a small value.
   */
  method ValidateConfig(c: Config) returns (r: Result<ValidatedConfig>)
    ensures r.Ok? <==> Acceptable(c)
    ensures r.Ok? ==> Sound(r.value)
    ensures r.Ok? ==> r.value.deficitCap == c.deficitCap
    ensures r.Ok? ==> r.value.maxBodyBytes == c.maxBodyBytes && r.value.maxRequestUnits == c.maxRequestUnits
    ensures r.Ok? ==> r.value.globalQueue == c.globalQueue && r.value.globalInflight == c.globalInflight
    ensures r.Ok? ==> |r.value.tenants| == |c.tenants|
    ensures r.Ok? ==> forall i :: 0 <= i < |c.tenants| ==> RegisteredAt(c, c.tenants[i], r.value.tenants[i])
  {
    if c.maxBodyBytes == 0 || c.maxRequestUnits == 0 || c.baseQuantum == 0
       || |c.tenants| == 0 || |c.tenants| > ABSOLUTE_MAX_TENANTS
       || !QueueHoldsOne(c.globalQueue, c.maxBodyBytes, c.maxRequestUnits)
       || c.globalQueue.count > ABSOLUTE_MAX_QUEUED_REQUESTS
       || !InflightHoldsOne(c.globalInflight, c.maxRequestUnits)
       || c.globalInflight.count > ABSOLUTE_MAX_INFLIGHT_REQUESTS {
      return Err;
    }
    var registry := ValidateTenants(c);
    if registry.Err? {
      return Err;
    }
    var credit := ValidateCredit(c, registry.value);
    if !credit {
      return Err;
    }
    var v := ValidatedConfig(c.maxBodyBytes, c.maxRequestUnits, c.deficitCap, c.globalQueue, c.globalInflight,
                             registry.value.tenants, registry.value.tenantByID);
    AcceptableIsSound(c, registry.value, v);
    r := Ok(v);
  }

  lemma AcceptableIsSound(c: Config, g: Registry, v: ValidatedConfig)
    requires Acceptable(c) && Registered(c, |c.tenants|, g)
    requires v == ValidatedConfig(c.maxBodyBytes, c.maxRequestUnits, c.deficitCap, c.globalQueue, c.globalInflight,
                                  g.tenants, g.tenantByID)
    ensures Sound(v)
  {
    forall i | 0 <= i < |v.tenants| ensures SoundTenant(v, v.tenants[i]) && FundingOk(v, v.tenants[i]) {
      assert RegisteredAt(c, c.tenants[i], g.tenants[i]);
      assert TenantAcceptable(c, c.tenants[i]);
    }
    forall i | 0 <= i < |v.tenants|
      ensures v.tenants[i].id in v.tenantByID && v.tenantByID[v.tenants[i].id] == i
    {
      assert RegisteredAt(c, c.tenants[i], g.tenants[i]);
    }
    forall id | id in v.tenantByID
      ensures v.tenantByID[id] < |v.tenants| && v.tenants[v.tenantByID[id]].id == id && id != 0
    {
      var i := g.tenantByID[id];
      assert RegisteredAt(c, c.tenants[i], g.tenants[i]);
      assert TenantAcceptable(c, c.tenants[i]);
    }
  }
}
