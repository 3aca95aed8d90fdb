/**
 * The request slots of the HTTP layer and their composition with the scheduler:
 * a request holds one tenant slot and one global slot until Acquire has returned,
 * so the scheduler's queue limits are never reached by the handler's own traffic.
 */
module PreDispatch {
  import opened Prelude
  import opened AdmissionConfig
  import opened Scheduling
  import opened SchedulingInvariant
  import opened Fairness
  import opened FundingCost
  import opened Outcomes
  import opened Acquire

  const ABSOLUTE_MAX_PRE_DISPATCH_TENANTS := 1024
  const ABSOLUTE_MAX_PRE_DISPATCH_COUNT := 4096

  datatype TenantLimit = TenantLimit(tenantID: nat, count: uint64)

  datatype Slots = Slots(global: uint64, tenants: map<nat, uint64>)

  // ---------------------------------------------------------------------
  // Validation
  // ---------------------------------------------------------------------

  /** `count` requests of the largest size fit the queue, in exact integers. */
  predicate EnvelopeFits(count: nat, queue: QueueLimits, maxBody: nat, maxUnits: nat) {
    count <= queue.count && count * maxBody <= queue.bytes && count * maxUnits <= queue.work
  }

  /** The check in machine arithmetic accepts exactly the envelopes that fit. */
  function ValidateEnvelope(count: uint64, queue: QueueLimits, maxBody: uint64, maxUnits: uint64): (accepted: bool)
    ensures accepted <==> EnvelopeFits(count, queue, maxBody, maxUnits)
  {
    Mul64Exact(count, maxBody);
    Mul64Exact(count, maxUnits);
    if count > queue.count then false
    else
      var bodies := Mul64(count, maxBody);
      if bodies.0 != 0 || bodies.1 > queue.bytes then false
      else
        var work := Mul64(count, maxUnits);
        !(work.0 != 0 || work.1 > queue.work)
  }

  predicate LimitAcceptable(cfg: ValidatedConfig, global: uint64, limit: TenantLimit) {
    && limit.tenantID != 0
    && 0 < limit.count <= global && limit.count <= 4096
    && limit.tenantID in cfg.tenantByID && cfg.tenantByID[limit.tenantID] < |cfg.tenants|
    && EnvelopeFits(limit.count, cfg.tenants[cfg.tenantByID[limit.tenantID]].queue, cfg.maxBodyBytes,
       cfg.maxRequestUnits)
  }

  predicate SlotsAcceptable(cfg: ValidatedConfig, global: uint64, limits: seq<TenantLimit>) {
    && 0 < global <= 4096
    && 0 < |limits| <= 1024
    && EnvelopeFits(global, cfg.globalQueue, cfg.maxBodyBytes, cfg.maxRequestUnits)
    && (forall i :: 0 <= i < |limits| ==> LimitAcceptable(cfg, global, limits[i]))
    && (forall i, j :: 0 <= i < j < |limits| ==> limits[i].tenantID != limits[j].tenantID)
  }

  /** What the running handler relies on. */
  ghost predicate SlotsOk(cfg: ValidatedConfig, slots: Slots) {
    && EnvelopeFits(slots.global, cfg.globalQueue, cfg.maxBodyBytes, cfg.maxRequestUnits)
    && forall t :: t in slots.tenants ==>
         && t in cfg.tenantByID && cfg.tenantByID[t] < |cfg.tenants|
         && EnvelopeFits(slots.tenants[t], cfg.tenants[cfg.tenantByID[t]].queue, cfg.maxBodyBytes, cfg.maxRequestUnits)
  }

  method ValidateSlots(cfg: ValidatedConfig, global: uint64, limits: seq<TenantLimit>) returns (r: Result<Slots>)
    requires Sound(cfg)
    ensures r.Ok? <==> SlotsAcceptable(cfg, global, limits)
    ensures r.Ok? ==> SlotsOk(cfg, r.value) && r.value.global == global
    ensures r.Ok? ==> forall i :: 0 <= i < |limits| ==>
      limits[i].tenantID in r.value.tenants && r.value.tenants[limits[i].tenantID] == limits[i].count
    ensures r.Ok? ==> r.value.tenants.Keys == set i | 0 <= i < |limits| :: limits[i].tenantID
  {
    hide Sound, EnvelopeFits, LimitAcceptable;
    if global == 0 || global > ABSOLUTE_MAX_PRE_DISPATCH_COUNT || |limits| == 0
       || |limits| > ABSOLUTE_MAX_PRE_DISPATCH_TENANTS {
      return Err;
    }
    if !ValidateEnvelope(global, cfg.globalQueue, cfg.maxBodyBytes, cfg.maxRequestUnits) {
      return Err;
    }
    var slots: map<nat, uint64> := map[];
    for index := 0 to |limits|
      invariant forall i :: 0 <= i < index ==> LimitAcceptable(cfg, global, limits[i])
      invariant forall i, j :: 0 <= i < j < index ==> limits[i].tenantID != limits[j].tenantID
      invariant forall i :: 0 <= i < index ==>
        limits[i].tenantID in slots && slots[limits[i].tenantID] == limits[i].count
      invariant slots.Keys == set i | 0 <= i < index :: limits[i].tenantID
      invariant forall t :: t in slots ==> LimitAcceptable(cfg, global, TenantLimit(t, slots[t]))
    {
      var limit := limits[index];
      if limit.tenantID in slots {
        var i :| 0 <= i < index && limits[i].tenantID == limit.tenantID;
        return Err;
      }
      var accepted := ValidateLimit(cfg, global, limit);
      if !accepted {
        return Err;
      }
      slots := slots[limit.tenantID := limit.count];
    }
    r := Ok(Slots(global, slots));
    LimitsServe(cfg, r.value);
  }

  lemma LimitsServe(cfg: ValidatedConfig, slots: Slots)
    requires EnvelopeFits(slots.global, cfg.globalQueue, cfg.maxBodyBytes, cfg.maxRequestUnits)
    requires forall t :: t in slots.tenants ==> LimitAcceptable(cfg, slots.global, TenantLimit(t, slots.tenants[t]))
    ensures SlotsOk(cfg, slots)
  {
    hide EnvelopeFits;
    forall t | t in slots.tenants
      ensures t in cfg.tenantByID && cfg.tenantByID[t] < |cfg.tenants|
              && EnvelopeFits(slots.tenants[t], cfg.tenants[cfg.tenantByID[t]].queue, cfg.maxBodyBytes,
                 cfg.maxRequestUnits) {
      assert LimitAcceptable(cfg, slots.global, TenantLimit(t, slots.tenants[t]));
    }
  }

  method ValidateLimit(cfg: ValidatedConfig, global: uint64, limit: TenantLimit) returns (accepted: bool)
    requires Sound(cfg)
    ensures accepted <==> LimitAcceptable(cfg, global, limit)
  {
    hide Sound, EnvelopeFits;
    if limit.tenantID == 0 || limit.count == 0 || limit.count > global
      || limit.count > ABSOLUTE_MAX_PRE_DISPATCH_COUNT {
      return false;
    }
    if limit.tenantID !in cfg.tenantByID {
      return false;
    }
    KnownTenant(cfg, limit.tenantID);
    var queue := cfg.tenants[cfg.tenantByID[limit.tenantID]].queue;
    accepted := ValidateEnvelope(limit.count, queue, cfg.maxBodyBytes, cfg.maxRequestUnits);
  }

  lemma KnownTenant(cfg: ValidatedConfig, id: nat)
    requires Sound(cfg) && id in cfg.tenantByID
    ensures cfg.tenantByID[id] < |cfg.tenants| && cfg.tenants[cfg.tenantByID[id]].id == id
  {
  }

  // ---------------------------------------------------------------------
  // Leases
  // ---------------------------------------------------------------------

  /** One request's hold on the slot channels; it names its tenant for good. */
  datatype Lease =
    | NoLease
    | TenantOnly(tenantID: nat)
    | Both(tenantID: nat)
    | GlobalReturned(tenantID: nat)
    | Released(tenantID: nat)

  /** The handlers beside the scheduler; `used` and `usedGlobal` are the fill of the slot channels. */
  datatype System = System(world: World, leases: map<nat, Lease>, used: map<nat, nat>, usedGlobal: nat)

  function LeaseOf(y: System, id: nat): (r: Lease) {
    if id in y.leases then y.leases[id] else NoLease
  }

  function UsedBy(y: System, t: nat): (r: nat) {
    if t in y.used then y.used[t] else 0
  }

  datatype Step =
    | TakeTenant(id: nat, tenantID: nat)
    | TakeGlobal(id: nat)
    | RollBack(id: nat)
    | ReturnGlobal(id: nat)
    | ReturnTenant(id: nat)
    | Within(action: Action)

  predicate Begins(a: Action) { a.ByCall? && a.step.BeginCall? }

  ghost predicate Possible(cfg: ValidatedConfig, slots: Slots, y: System, p: Step) {
    match p
    case TakeTenant(id, t) => LeaseOf(y, id).NoLease? && t in slots.tenants && UsedBy(y, t) < slots.tenants[t]
    case TakeGlobal(id) => LeaseOf(y, id).TenantOnly? && y.usedGlobal < slots.global
    case RollBack(id) => LeaseOf(y, id).TenantOnly? && y.usedGlobal >= slots.global
    case ReturnGlobal(id) => LeaseOf(y, id).Both? && (CallOf(y.world, id).NotCalled? || CallOf(y.world, id).Returned?)
    case ReturnTenant(id) => LeaseOf(y, id).GlobalReturned?
    case Within(a) =>
      && Allowed(cfg, y.world, a)
      && (Begins(a) ==> LeaseOf(y, a.id) == Both(a.step.admission.tenantID))
  }

  function Held(y: System, id: nat, l: Lease, fill: int, globalFill: int): (r: System)
    requires !l.NoLease? && 0 <= UsedBy(y, l.tenantID) + fill && 0 <= y.usedGlobal + globalFill
  {
    y.(leases := y.leases[id := l], used := y.used[l.tenantID := UsedBy(y, l.tenantID) + fill],
       usedGlobal := y.usedGlobal + globalFill)
  }

  ghost function Taken(cfg: ValidatedConfig, slots: Slots, y: System, p: Step): (r: System)
    requires Possible(cfg, slots, y, p)
    requires p.RollBack? || p.ReturnTenant? ==> UsedBy(y, LeaseOf(y, p.id).tenantID) > 0
    requires p.ReturnGlobal? ==> y.usedGlobal > 0
  {
    match p
    case TakeTenant(id, t) => Held(y, id, TenantOnly(t), 1, 0)
    case TakeGlobal(id) => Held(y, id, Both(LeaseOf(y, id).tenantID), 0, 1)
    case RollBack(id) => Held(y, id, Released(LeaseOf(y, id).tenantID), -1, 0)
    case ReturnGlobal(id) => Held(y, id, GlobalReturned(LeaseOf(y, id).tenantID), 0, -1)
    case ReturnTenant(id) => Held(y, id, Released(LeaseOf(y, id).tenantID), -1, 0)
    case Within(a) => y.(world := Do(cfg, y.world, a))
  }

  predicate HasTenantSlot(l: Lease, t: nat) {
    (l.TenantOnly? || l.Both? || l.GlobalReturned?) && l.tenantID == t
  }

  /** The requests that hold a slot of tenant `t`, and those that hold a global slot. */
  ghost function TenantHolders(leases: map<nat, Lease>, t: nat): (r: set<nat>) {
    set id | id in leases && HasTenantSlot(leases[id], t)
  }

  ghost function GlobalHolders(leases: map<nat, Lease>): (r: set<nat>) {
    set id | id in leases && leases[id].Both?
  }

  lemma TenantHoldersMove(leases: map<nat, Lease>, id: nat, l: Lease, t: nat)
    ensures TenantHolders(leases[id := l], t)
      == TenantHolders(leases, t) - {id} + (if HasTenantSlot(l, t) then {id} else {})
    ensures id in TenantHolders(leases, t) <==> id in leases && HasTenantSlot(leases[id], t)
  {
  }

  lemma GlobalHoldersMove(leases: map<nat, Lease>, id: nat, l: Lease)
    ensures GlobalHolders(leases[id := l]) == GlobalHolders(leases) - {id} + (if l.Both? then {id} else {})
    ensures id in GlobalHolders(leases) <==> id in leases && leases[id].Both?
  {
  }

  /** A caller inside Acquire: past the first checks and not yet returned. */
  predicate Inside(c: Call) { !c.NotCalled? && !c.Returned? }

  ghost predicate SlotsCounted(slots: Slots, y: System) {
    && (forall t :: UsedBy(y, t) == |TenantHolders(y.leases, t)|)
    && y.usedGlobal == |GlobalHolders(y.leases)| <= slots.global
    && (forall t :: UsedBy(y, t) > 0 ==> t in slots.tenants && UsedBy(y, t) <= slots.tenants[t])
  }

  /** The lease of an entry names the tenant it was submitted for. */
  ghost predicate TenantsMatch(cfg: ValidatedConfig, y: System) {
    && (forall id :: CallOf(y.world, id).Sending? ==> LeaseOf(y, id) == Both(CallOf(y.world, id).sub.tenantID))
    && (forall m :: m in y.world.mailbox && m.AdmitMessage? ==>
          !LeaseOf(y, m.sub.id).NoLease? && LeaseOf(y, m.sub.id).tenantID == m.sub.tenantID)
    && (forall r :: Queued(y.world.owner, r) ==>
          r.tenant < |cfg.tenants| && !LeaseOf(y, r.id).NoLease?
            && LeaseOf(y, r.id).tenantID == cfg.tenants[r.tenant].id)
  }

  ghost predicate SystemOk(cfg: ValidatedConfig, slots: Slots, y: System) {
    && WorldOk(cfg, y.world)
    && SlotsCounted(slots, y)
    && TenantsMatch(cfg, y)
    && (forall id :: Inside(CallOf(y.world, id)) ==> LeaseOf(y, id).Both?)
  }

  // ---------------------------------------------------------------------
  // Every step keeps the invariant
  // ---------------------------------------------------------------------

  lemma OneOut(s: set<nat>, id: nat)
    requires id in s
    ensures |s - {id}| == |s| - 1
  {
  }

  lemma OneIn(s: set<nat>, id: nat)
    requires id !in s
    ensures |s - {id} + {id}| == |s| + 1 && s - {id} == s
  {
    assert s - {id} == s;
  }

  /** A slot is returned only by a request that holds it, so no channel is drained below empty. */
  lemma SlotIsThere(slots: Slots, y: System, id: nat)
    requires SlotsCounted(slots, y) && !LeaseOf(y, id).NoLease?
    ensures HasTenantSlot(LeaseOf(y, id), LeaseOf(y, id).tenantID) ==> UsedBy(y, LeaseOf(y, id).tenantID) > 0
    ensures LeaseOf(y, id).Both? ==> y.usedGlobal > 0
  {
    var t := LeaseOf(y, id).tenantID;
    if HasTenantSlot(LeaseOf(y, id), t) {
      assert id in TenantHolders(y.leases, t);
    }
    if LeaseOf(y, id).Both? {
      assert id in GlobalHolders(y.leases);
    }
  }

  lemma TenantCount(slots: Slots, y: System, id: nat, l: Lease, fill: int, globalFill: int)
    requires SlotsCounted(slots, y) && !l.NoLease?
    requires !LeaseOf(y, id).NoLease? ==> l.tenantID == LeaseOf(y, id).tenantID
    requires fill == (if HasTenantSlot(l, l.tenantID) then 1 else 0)
      - (if HasTenantSlot(LeaseOf(y, id), l.tenantID) then 1 else 0)
    requires 0 <= UsedBy(y, l.tenantID) + fill && 0 <= y.usedGlobal + globalFill
    ensures forall t :: UsedBy(Held(y, id, l, fill, globalFill), t) == |TenantHolders(y.leases[id := l], t)|
  {
    hide Held;
    HeldUse(y, id, l, fill, globalFill);
    forall t ensures UsedBy(Held(y, id, l, fill, globalFill), t) == |TenantHolders(y.leases[id := l], t)| {
      HolderCount(y.leases, id, l, t);
    }
  }

  lemma HeldUse(y: System, id: nat, l: Lease, fill: int, globalFill: int)
    requires !l.NoLease? && 0 <= UsedBy(y, l.tenantID) + fill && 0 <= y.usedGlobal + globalFill
    ensures var v := Held(y, id, l, fill, globalFill);
      && UsedBy(v, l.tenantID) == UsedBy(y, l.tenantID) + fill
      && forall t :: t != l.tenantID ==> UsedBy(v, t) == UsedBy(y, t)
  {
  }

  lemma HolderCount(leases: map<nat, Lease>, id: nat, l: Lease, t: nat)
    requires !l.NoLease? && (id in leases && !leases[id].NoLease? ==> l.tenantID == leases[id].tenantID)
    ensures |TenantHolders(leases[id := l], t)| == |TenantHolders(leases, t)|
            + (if HasTenantSlot(l, t) then 1 else 0)
            - (if id in leases && HasTenantSlot(leases[id], t) then 1 else 0)
  {
    hide TenantHolders, HasTenantSlot;
    TenantHoldersMove(leases, id, l, t);
    var before := TenantHolders(leases, t);
    if id in before {
      OneOut(before, id);
      assert HasTenantSlot(l, t) ==> before - {id} + {id} == before;
    } else {
      OneIn(before, id);
      assert before - {id} + {} == before;
    }
  }

  lemma GlobalCount(slots: Slots, y: System, id: nat, l: Lease, globalFill: int)
    requires SlotsCounted(slots, y)
    requires globalFill == (if l.Both? then 1 else 0) - (if LeaseOf(y, id).Both? then 1 else 0)
    ensures y.usedGlobal + globalFill == |GlobalHolders(y.leases[id := l])|
  {
    hide TenantHolders, GlobalHolders;
    GlobalHoldersMove(y.leases, id, l);
    var before := GlobalHolders(y.leases);
    if id in before {
      OneOut(before, id);
      assert l.Both? ==> before - {id} + {id} == before;
    } else {
      OneIn(before, id);
    }
  }

  /** Moving one lease keeps the channels' fill equal to the number of holders. */
  lemma LeaseMoves(cfg: ValidatedConfig, slots: Slots, y: System, id: nat, l: Lease, fill: int, globalFill: int)
    requires SystemOk(cfg, slots, y) && !l.NoLease?
    requires !LeaseOf(y, id).NoLease? ==> l.tenantID == LeaseOf(y, id).tenantID
    requires fill == (if HasTenantSlot(l, l.tenantID) then 1 else 0)
      - (if HasTenantSlot(LeaseOf(y, id), l.tenantID) then 1 else 0)
    requires globalFill == (if l.Both? then 1 else 0) - (if LeaseOf(y, id).Both? then 1 else 0)
    requires 0 <= UsedBy(y, l.tenantID) + fill && 0 <= y.usedGlobal + globalFill <= slots.global
    requires fill > 0 ==> l.tenantID in slots.tenants && UsedBy(y, l.tenantID) < slots.tenants[l.tenantID]
    requires Inside(CallOf(y.world, id)) ==> l.Both?
    ensures SystemOk(cfg, slots, Held(y, id, l, fill, globalFill))
  {
    hide WorldOk, TenantHolders, GlobalHolders, Queued;
    TenantCount(slots, y, id, l, fill, globalFill);
    GlobalCount(slots, y, id, l, globalFill);
  }

  lemma SlotStep(cfg: ValidatedConfig, slots: Slots, y: System, p: Step)
    requires SystemOk(cfg, slots, y) && Possible(cfg, slots, y, p) && !p.Within?
    ensures p.RollBack? || p.ReturnTenant? ==> UsedBy(y, LeaseOf(y, p.id).tenantID) > 0
    ensures p.ReturnGlobal? ==> y.usedGlobal > 0
    ensures SystemOk(cfg, slots, Taken(cfg, slots, y, p))
  {
    hide SystemOk, Allowed, Do, Held, UsedBy, LeaseOf, CallOf;
    CallHasLease(cfg, slots, y, p.id);
    match p {
      case TakeTenant(id, t) => LeaseMoves(cfg, slots, y, id, TenantOnly(t), 1, 0);
      case TakeGlobal(id) => LeaseMoves(cfg, slots, y, id, Both(LeaseOf(y, id).tenantID), 0, 1);
      case RollBack(id) => LeaseMoves(cfg, slots, y, id, Released(LeaseOf(y, id).tenantID), -1, 0);
      case ReturnGlobal(id) => LeaseMoves(cfg, slots, y, id, GlobalReturned(LeaseOf(y, id).tenantID), 0, -1);
      case ReturnTenant(id) => LeaseMoves(cfg, slots, y, id, Released(LeaseOf(y, id).tenantID), -1, 0);
    }
  }

  lemma CallHasLease(cfg: ValidatedConfig, slots: Slots, y: System, id: nat)
    requires SystemOk(cfg, slots, y)
    ensures Inside(CallOf(y.world, id)) ==> LeaseOf(y, id).Both?
    ensures y.usedGlobal <= slots.global
    ensures !LeaseOf(y, id).NoLease? && HasTenantSlot(LeaseOf(y, id), LeaseOf(y, id).tenantID) ==>
      UsedBy(y, LeaseOf(y, id).tenantID) > 0
    ensures LeaseOf(y, id).Both? ==> y.usedGlobal > 0
  {
    hide WorldOk, TenantsMatch;
    if !LeaseOf(y, id).NoLease? {
      SlotIsThere(slots, y, id);
    }
  }

  // ---------------------------------------------------------------------
  // Steps inside the scheduler
  // ---------------------------------------------------------------------

  /** A call enters Acquire only by beginning, and keeps its submission while it sends. */
  lemma CallEnters(cfg: ValidatedConfig, w: World, a: Action, id: nat)
    requires Allowed(cfg, w, a)
    ensures var before, after := CallOf(w, id), CallOf(Do(cfg, w, a), id);
      && (Inside(after) ==> Inside(before) || (Begins(a) && a.id == id))
      && (after.Sending? ==>
         after == before || (Begins(a) && a.id == id && after.sub.tenantID == a.step.admission.tenantID))
  {
    hide Allowed, Do, ByCaller, CallOf;
    if ByOwner(a) {
      OwnerLeavesCalls(cfg, w, a, id);
    } else if ByCaller(a, id) {
      OwnCall(cfg, w, a, id);
    } else {
      ClientFrame(cfg, w, a);
    }
  }

  lemma OwnerLeavesCalls(cfg: ValidatedConfig, w: World, a: Action, id: nat)
    requires Allowed(cfg, w, a) && ByOwner(a)
    ensures CallOf(Do(cfg, w, a), id) == CallOf(w, id)
  {
    hide Enabled, Apply, Handles, Internal, TerminalOutcome, CauseAtFinish;
  }

  lemma OwnCall(cfg: ValidatedConfig, w: World, a: Action, id: nat)
    requires Allowed(cfg, w, a) && ByCaller(a, id)
    ensures var before, after := CallOf(w, id), CallOf(Do(cfg, w, a), id);
      && (Inside(after) ==> Inside(before) || (Begins(a) && a.id == id))
      && (after.Sending? ==>
         after == before || (Begins(a) && a.id == id && after.sub.tenantID == a.step.admission.tenantID))
  {
    hide ValidateAdmission, Enabled, Apply, Handles, Internal, Acknowledged, Room;
  }

  lemma MailboxMatches(cfg: ValidatedConfig, slots: Slots, y: System, a: Action, m: Message)
    requires SystemOk(cfg, slots, y) && Allowed(cfg, y.world, a)
    requires m in Do(cfg, y.world, a).mailbox && m.AdmitMessage?
    ensures !LeaseOf(y, m.sub.id).NoLease? && LeaseOf(y, m.sub.id).tenantID == m.sub.tenantID
  {
    hide WorldOk, SlotsCounted, Allowed, Do, LeaseOf, CallOf;
    MailboxStep(cfg, y.world, a, m);
    if m !in y.world.mailbox {
      OnlySenders(cfg, y.world, a, m);
      SendingOwn(cfg, y.world, a.id);
    }
  }

  lemma OnlySenders(cfg: ValidatedConfig, w: World, a: Action, m: Message)
    requires Allowed(cfg, w, a) && Posted(w, a) == Some(m) && m.AdmitMessage?
    ensures a.ByCall? && CallOf(w, a.id) == Sending(m.sub)
  {
    hide Enabled, Handles, Internal;
  }

  lemma SendingOwn(cfg: ValidatedConfig, w: World, id: nat)
    requires WorldOk(cfg, w) && CallOf(w, id).Sending?
    ensures CallOf(w, id).sub.id == id
  {
    hide Sound, Inv, Trail, StatusOf;
    assert Consistent(cfg, w, id);
  }

  /** A new queued entry comes from the submission at the head of the mailbox. */
  lemma QueuedFromMailbox(cfg: ValidatedConfig, w: World, a: Action, r: Request)
    requires Inv(cfg, w.owner) && Allowed(cfg, w, a) && Queued(Do(cfg, w, a).owner, r) && !Queued(w.owner, r)
    ensures a.OwnerTakes? && w.mailbox != [] && w.mailbox[0].AdmitMessage?
    ensures var sub := w.mailbox[0].sub;
      r.id == sub.id && sub.tenantID in cfg.tenantByID && cfg.tenantByID[sub.tenantID] == r.tenant
  {
    hide Limits, Identity, Shape, Allowed, Do, Enabled, Apply, AdmitRefusal, Queued;
    OwnerStep(cfg, w, a);
    var e := OwnerEvent(cfg, w, a).value;
    StepQueued(cfg, w.owner, e);
    var found := Arriving(cfg, w.owner, e.sub);
    AdmitIsTaken(cfg, w, a);
    AcceptedID(cfg, w.owner, e.sub);
  }

  lemma AcceptedID(cfg: ValidatedConfig, s: State, sub: Submission)
    requires AdmitRefusal(cfg, s, sub).None?
    ensures sub.tenantID in cfg.tenantByID && sub.id !in s.canceled
  {
    hide QueueLoad, TotalLoad, QueueLimitFailure;
  }

  lemma AdmitIsTaken(cfg: ValidatedConfig, w: World, a: Action)
    requires Allowed(cfg, w, a) && OwnerEvent(cfg, w, a).Some? && OwnerEvent(cfg, w, a).value.Admit?
    ensures a.OwnerTakes? && w.mailbox != [] && w.mailbox[0] == AdmitMessage(OwnerEvent(cfg, w, a).value.sub)
  {
    hide Enabled;
  }

  lemma QueueMatches(cfg: ValidatedConfig, slots: Slots, y: System, a: Action, r: Request)
    requires SystemOk(cfg, slots, y) && Allowed(cfg, y.world, a) && Queued(Do(cfg, y.world, a).owner, r)
    ensures r.tenant < |cfg.tenants| && !LeaseOf(y, r.id).NoLease?
      && LeaseOf(y, r.id).tenantID == cfg.tenants[r.tenant].id
  {
    hide SlotsCounted, Allowed, Do, LeaseOf, CallOf, Inv, Sound, Consistent, Queued, IsDrained;
    if !Queued(y.world.owner, r) {
      QueuedFromMailbox(cfg, y.world, a, r);
      var m := y.world.mailbox[0];
      assert m in y.world.mailbox;
      KnownTenant(cfg, m.sub.tenantID);
    }
  }

  lemma WithinStep(cfg: ValidatedConfig, slots: Slots, y: System, a: Action)
    requires SystemOk(cfg, slots, y) && Possible(cfg, slots, y, Within(a))
    ensures SystemOk(cfg, slots, Taken(cfg, slots, y, Within(a)))
  {
    hide WorldOk, SlotsCounted, Allowed, Do, CallOf, Queued;
    WorldStep(cfg, y.world, a);
    var v := Taken(cfg, slots, y, Within(a));
    forall id ensures (Inside(CallOf(v.world, id)) ==> LeaseOf(v, id).Both?)
              && (CallOf(v.world, id).Sending? ==> LeaseOf(v, id) == Both(CallOf(v.world, id).sub.tenantID)) {
      CallEnters(cfg, y.world, a, id);
    }
    forall m | m in v.world.mailbox && m.AdmitMessage?
      ensures !LeaseOf(v, m.sub.id).NoLease? && LeaseOf(v, m.sub.id).tenantID == m.sub.tenantID {
      MailboxMatches(cfg, slots, y, a, m);
    }
    forall r | Queued(v.world.owner, r)
      ensures r.tenant < |cfg.tenants| && !LeaseOf(v, r.id).NoLease?
        && LeaseOf(v, r.id).tenantID == cfg.tenants[r.tenant].id {
      QueueMatches(cfg, slots, y, a, r);
    }
    SlotsUnmoved(slots, y, v);
  }

  lemma SlotsUnmoved(slots: Slots, y: System, v: System)
    requires SlotsCounted(slots, y) && v == y.(world := v.world)
    ensures SlotsCounted(slots, v)
  {
    hide TenantHolders, GlobalHolders;
    assert forall t :: UsedBy(v, t) == UsedBy(y, t);
  }

  // ---------------------------------------------------------------------
  // Handler-only traffic never meets a full queue
  // ---------------------------------------------------------------------

  ghost function Ids(q: seq<Request>): (r: set<nat>) { set r | r in q :: r.id }

  lemma {:induction false} IdsCount(q: seq<Request>)
    requires UniqueIds(q)
    ensures |Ids(q)| == |q| == QueueLoad(q).count
  {
    QueueLoadCount(q);
    if q != [] {
      IdsCount(q[1..]);
      assert Ids(q) == Ids(q[1..]) + {q[0].id};
      assert q[0].id !in Ids(q[1..]);
    }
  }

  /** Requests of bounded size have a bounded load. */
  lemma {:induction false} LoadBound(cfg: ValidatedConfig, q: seq<Request>)
    requires forall r :: r in q ==> RequestOk(cfg, r)
    ensures QueueLoad(q).bytes <= |q| * cfg.maxBodyBytes && QueueLoad(q).work <= |q| * cfg.maxRequestUnits
  {
    if q != [] {
      LoadBound(cfg, q[1..]);
      assert q[0] in q;
      OneMore(|q| - 1, cfg.maxBodyBytes);
      OneMore(|q| - 1, cfg.maxRequestUnits);
    }
  }

  /** One more request of bounded size fits an envelope with a place left. */
  lemma EnvelopeHasRoom(cfg: ValidatedConfig, q: seq<Request>, count: nat, limits: QueueLimits, sub: Submission)
    requires EnvelopeFits(count, limits, cfg.maxBodyBytes, cfg.maxRequestUnits) && |q| + 1 <= count
    requires forall r :: r in q ==> RequestOk(cfg, r)
    requires WellFormed(cfg, sub)
    ensures QueueLimitFailure(QueueLoad(q), sub.bytes, sub.work, limits).None?
  {
    hide QueueLoad;
    QueueLoadCount(q);
    LoadBound(cfg, q);
    MulMono(|q| + 1, count, cfg.maxBodyBytes);
    MulMono(|q| + 1, count, cfg.maxRequestUnits);
    OneMore(|q|, cfg.maxBodyBytes);
    OneMore(|q|, cfg.maxRequestUnits);
  }

  /** All queues in one list. */
  function Flat(ts: seq<Tenant>): (r: seq<Request>) {
    if ts == [] then [] else ts[0].queue + Flat(ts[1..])
  }

  lemma {:induction false} QueueLoadJoin(p: seq<Request>, q: seq<Request>)
    ensures IsSum(QueueLoad(p + q), QueueLoad(p), QueueLoad(q))
  {
    if p == [] {
      assert p + q == q;
    } else {
      assert (p + q)[1..] == p[1..] + q;
      QueueLoadJoin(p[1..], q);
    }
  }

  lemma {:induction false} FlatLoad(ts: seq<Tenant>)
    ensures QueueLoad(Flat(ts)) == TotalLoad(ts)
  {
    if ts != [] {
      FlatLoad(ts[1..]);
      QueueLoadJoin(ts[0].queue, Flat(ts[1..]));
    }
  }

  lemma {:induction false} FlatMembers(ts: seq<Tenant>, r: Request)
    ensures r in Flat(ts) <==> exists t :: 0 <= t < |ts| && r in ts[t].queue
  {
    if ts != [] {
      var rest := ts[1..];
      FlatMembers(rest, r);
      assert r in Flat(ts) <==> r in ts[0].queue || r in Flat(rest);
      if r in Flat(rest) {
        var t :| 0 <= t < |rest| && r in rest[t].queue;
        assert r in ts[t + 1].queue;
      }
      if t :| 0 <= t < |ts| && r in ts[t].queue {
        assert t > 0 ==> r in rest[t - 1].queue;
      }
    }
  }

  /** Queues with unique identifiers, pairwise disjoint, make a list with unique identifiers. */
  lemma {:induction false} FlatUnique(ts: seq<Tenant>)
    requires forall t :: 0 <= t < |ts| ==> UniqueIds(ts[t].queue)
    requires forall t, u, r, x :: 0 <= t < u < |ts| && r in ts[t].queue && x in ts[u].queue ==> r.id != x.id
    ensures UniqueIds(Flat(ts))
  {
    if ts != [] {
      var rest := ts[1..];
      assert forall t :: 0 <= t < |rest| ==> rest[t] == ts[t + 1];
      FlatUnique(rest);
      var all := Flat(ts);
      var n := |ts[0].queue|;
      forall i, j | 0 <= i < j < |all| ensures all[i].id != all[j].id {
        if j >= n {
          assert all[j] == Flat(rest)[j - n];
          FlatMembers(rest, all[j]);
          var t :| 0 <= t < |rest| && all[j] in rest[t].queue;
          if i < n {
            assert all[i] in ts[0].queue && all[j] in ts[t + 1].queue;
          } else {
            assert all[i] == Flat(rest)[i - n];
          }
        }
      }
    }
  }

  /** Queued entries are well placed, well formed and have identifiers of their own. */
  lemma QueueFacts(cfg: ValidatedConfig, s: State)
    requires Inv(cfg, s)
    ensures forall t :: 0 <= t < |s.tenants| ==> UniqueIds(s.tenants[t].queue)
    ensures UniqueIds(Flat(s.tenants))
    ensures forall r :: r in Flat(s.tenants) <==> Queued(s, r)
    ensures forall r :: Queued(s, r) ==> RequestOk(cfg, r)
  {
    hide Limits;
    forall t | 0 <= t < |s.tenants| ensures UniqueIds(s.tenants[t].queue) {
      var q := s.tenants[t].queue;
      assert QueueOk(cfg, t, q, s.sequence);
      forall i, j | 0 <= i < j < |q| ensures q[i].id != q[j].id {
        assert q[i] in q && q[j] in q;
        assert Queued(s, q[i]) && Queued(s, q[j]);
      }
    }
    Placed(cfg, s);
    FlatUnique(s.tenants);
    forall r ensures r in Flat(s.tenants) <==> Queued(s, r) {
      FlatMembers(s.tenants, r);
    }
  }

  lemma Placed(cfg: ValidatedConfig, s: State)
    requires Inv(cfg, s)
    ensures forall t, r :: 0 <= t < |s.tenants| && r in s.tenants[t].queue ==>
      r.tenant == t && Queued(s, r) && RequestOk(cfg, r)
    ensures forall t, u, r, x :: 0 <= t < u < |s.tenants| && r in s.tenants[t].queue && x in s.tenants[u].queue ==>
      r.id != x.id
  {
    hide Limits;
    forall t, r | 0 <= t < |s.tenants| && r in s.tenants[t].queue
      ensures r.tenant == t && Queued(s, r) && RequestOk(cfg, r) {
      assert QueueOk(cfg, t, s.tenants[t].queue, s.sequence);
    }
  }

  lemma QueuedHoldsBoth(cfg: ValidatedConfig, slots: Slots, y: System, r: Request)
    requires SystemOk(cfg, slots, y) && Queued(y.world.owner, r)
    ensures r.tenant < |cfg.tenants| && LeaseOf(y, r.id) == Both(cfg.tenants[r.tenant].id)
    ensures r.id in GlobalHolders(y.leases) && r.id in TenantHolders(y.leases, cfg.tenants[r.tenant].id)
  {
    hide Sound, Inv, Trail, StatusOf, SlotsCounted, Queued;
    var w := y.world;
    assert Consistent(cfg, w, r.id);
    assert Waits(w.owner, r.id);
    Places(cfg, w.owner, r.id);
    assert Inside(CallOf(w, r.id));
  }

  /** The submission at the head of the mailbox belongs to a holder that is not queued yet. */
  lemma SubmitterHoldsBoth(cfg: ValidatedConfig, slots: Slots, y: System, sub: Submission)
    requires SystemOk(cfg, slots, y) && y.world.running && y.world.mailbox != []
      && y.world.mailbox[0] == AdmitMessage(sub)
    ensures sub.id in GlobalHolders(y.leases) && sub.id in TenantHolders(y.leases, sub.tenantID)
    ensures !Waits(y.world.owner, sub.id) && WellFormed(cfg, sub)
  {
    hide Sound, Inv, Trail, SlotsCounted, Queued;
    var w := y.world;
    assert w.mailbox[0] in w.mailbox;
    assert Consistent(cfg, w, sub.id);
    TrailTaken(w.mailbox, sub.id);
    assert Trail(w.mailbox, sub.id)[0] == AdmitTag;
    assert Inside(CallOf(w, sub.id));
  }

  lemma Fits(cfg: ValidatedConfig, slots: Slots, y: System, sub: Submission, q: seq<Request>, holders: set<nat>,
             count: nat,
             limits: QueueLimits)
    requires UniqueIds(q) && (forall r :: r in q ==> RequestOk(cfg, r)) && WellFormed(cfg, sub)
    requires forall r :: r in q ==> r.id in holders && r.id != sub.id
    requires sub.id in holders && |holders| <= count
    requires EnvelopeFits(count, limits, cfg.maxBodyBytes, cfg.maxRequestUnits)
    ensures QueueLimitFailure(QueueLoad(q), sub.bytes, sub.work, limits).None?
  {
    IdsCount(q);
    assert sub.id !in Ids(q);
    Subset(Ids(q) + {sub.id}, holders);
    EnvelopeHasRoom(cfg, q, count, limits, sub);
  }

  lemma Subset(a: set<nat>, b: set<nat>)
    requires a <= b
    ensures |a| <= |b|
  {
    assert b == a + (b - a);
  }

  /** The same for the tenant's queue and for all queues together. */
  lemma QueuesHaveRoom(cfg: ValidatedConfig, slots: Slots, y: System, sub: Submission, t: nat)
    requires SystemOk(cfg, slots, y) && SlotsOk(cfg, slots) && y.world.running
    requires y.world.mailbox != [] && y.world.mailbox[0] == AdmitMessage(sub)
    requires sub.tenantID in cfg.tenantByID && t == cfg.tenantByID[sub.tenantID] && t < |y.world.owner.tenants|
    ensures t < |cfg.tenants|
    ensures QueueLimitFailure(QueueLoad(y.world.owner.tenants[t].queue), sub.bytes, sub.work,
      cfg.tenants[t].queue).None?
    ensures QueueLimitFailure(TotalLoad(y.world.owner.tenants), sub.bytes, sub.work, cfg.globalQueue).None?
  {
    hide Sound, Inv, Consistent, Queued, QueueLoad, TotalLoad, QueueLimitFailure, EnvelopeFits, RequestOk, WellFormed,
      TenantHolders, GlobalHolders, UniqueIds, TenantsMatch, IsDrained;
    var s := y.world.owner;
    KnownTenant(cfg, sub.tenantID);
    SubmitterHoldsBoth(cfg, slots, y, sub);
    QueueFacts(cfg, s);
    Placed(cfg, s);
    forall r | Queued(s, r) ensures r.id in GlobalHolders(y.leases) && r.id != sub.id && r.tenant < |cfg.tenants|
                                    && r.id in TenantHolders(y.leases, cfg.tenants[r.tenant].id) {
      QueuedHoldsBoth(cfg, slots, y, r);
      assert Waits(s, r.id);
    }
    HoldersWithinLimits(slots, y, sub);
    Fits(cfg, slots, y, sub, s.tenants[t].queue, TenantHolders(y.leases, sub.tenantID), slots.tenants[sub.tenantID],
      cfg.tenants[t].queue);
    Fits(cfg, slots, y, sub, Flat(s.tenants), GlobalHolders(y.leases), slots.global, cfg.globalQueue);
    FlatLoad(s.tenants);
  }

  lemma HoldersWithinLimits(slots: Slots, y: System, sub: Submission)
    requires SlotsCounted(slots, y) && sub.id in TenantHolders(y.leases, sub.tenantID)
    ensures sub.tenantID in slots.tenants && |TenantHolders(y.leases, sub.tenantID)| <= slots.tenants[sub.tenantID]
    ensures |GlobalHolders(y.leases)| <= slots.global
  {
    hide TenantHolders, GlobalHolders;
    assert UsedBy(y, sub.tenantID) == |TenantHolders(y.leases, sub.tenantID)| > 0;
  }

  predicate Overflow(d: Option<Decision>) {
    d.Some? && (d.value.TenantRejected? || d.value.GlobalRejected?)
  }

  lemma RoomMeansNoOverflow(cfg: ValidatedConfig, s: State, sub: Submission)
    requires sub.tenantID in cfg.tenantByID && cfg.tenantByID[sub.tenantID] < |s.tenants| == |cfg.tenants| ==>
      var t := cfg.tenantByID[sub.tenantID];
      && QueueLimitFailure(QueueLoad(s.tenants[t].queue), sub.bytes, sub.work, cfg.tenants[t].queue).None?
      && QueueLimitFailure(TotalLoad(s.tenants), sub.bytes, sub.work, cfg.globalQueue).None?
    requires |s.tenants| == |cfg.tenants|
    ensures !Overflow(AdmitRefusal(cfg, s, sub))
  {
    hide QueueLoad, TotalLoad, QueueLimitFailure;
  }

  function Opening(cfg: ValidatedConfig): (r: System) { System(Acquire.Start(cfg), map[], map[], 0) }

  ghost predicate Traffic(cfg: ValidatedConfig, slots: Slots, ps: seq<Step>)
    requires Sound(cfg)
    decreases |ps|, 0
  {
    ps == [] ||
    (Traffic(cfg, slots, ps[..|ps| - 1]) && Possible(cfg, slots, Arrived(cfg, slots, ps[..|ps| - 1]), ps[|ps| - 1]))
  }

  /** The system after a sequence of steps of handlers, clients and owner; it always keeps the invariant. */
  ghost function Arrived(cfg: ValidatedConfig, slots: Slots, ps: seq<Step>): (y: System)
    requires Sound(cfg) && Traffic(cfg, slots, ps)
    ensures SystemOk(cfg, slots, y)
    decreases |ps|, 1
  {
    hide SystemOk, Possible, Taken, Sound;
    if ps == [] then
      OpeningOk(cfg, slots);
      Opening(cfg)
    else
      var before := Arrived(cfg, slots, ps[..|ps| - 1]);
      StepKeeps(cfg, slots, before, ps[|ps| - 1]);
      Taken(cfg, slots, before, ps[|ps| - 1])
  }

  lemma OpeningOk(cfg: ValidatedConfig, slots: Slots)
    requires Sound(cfg)
    ensures SystemOk(cfg, slots, Opening(cfg))
  {
    hide Sound, WorldOk;
    StartOk(cfg);
    assert forall t :: TenantHolders(map[], t) == {};
    assert GlobalHolders(map[]) == {};
  }

  lemma StepKeeps(cfg: ValidatedConfig, slots: Slots, y: System, p: Step)
    requires SystemOk(cfg, slots, y) && Possible(cfg, slots, y, p)
    ensures p.RollBack? || p.ReturnTenant? ==> UsedBy(y, LeaseOf(y, p.id).tenantID) > 0
    ensures p.ReturnGlobal? ==> y.usedGlobal > 0
    ensures SystemOk(cfg, slots, Taken(cfg, slots, y, p))
  {
    hide SystemOk, Possible, Taken;
    if p.Within? {
      WithinStep(cfg, slots, y, p.action);
    } else {
      SlotStep(cfg, slots, y, p);
    }
  }

  /**
   * In every reachable state the owner finds room for the next submission of the
   * handler, so the handler never sees a tenant or a global rejection.
   */
  lemma HandlerNeverMeetsFullQueue(cfg: ValidatedConfig, slots: Slots, ps: seq<Step>, sub: Submission)
    requires Sound(cfg) && SlotsOk(cfg, slots) && Traffic(cfg, slots, ps)
    requires var w := Arrived(cfg, slots, ps).world; w.running && w.mailbox != [] && w.mailbox[0] == AdmitMessage(sub)
    ensures !Overflow(AdmitRefusal(cfg, Arrived(cfg, slots, ps).world.owner, sub))
  {
    hide Traffic, Arrived, SlotsOk, AdmitRefusal, Sound, Inv, Consistent, SlotsCounted, TenantsMatch, QueueLimitFailure,
      QueueLoad, TotalLoad;
    var y := Arrived(cfg, slots, ps);
    InvSized(cfg, y.world.owner);
    if sub.tenantID in cfg.tenantByID {
      KnownTenant(cfg, sub.tenantID);
      QueuesHaveRoom(cfg, slots, y, sub, cfg.tenantByID[sub.tenantID]);
    }
    RoomMeansNoOverflow(cfg, y.world.owner, sub);
  }

  /** The number of requests between the slots and Acquire's return never exceeds the configured counts. */
  lemma SlotsBoundHandlers(cfg: ValidatedConfig, slots: Slots, ps: seq<Step>, t: nat)
    requires Sound(cfg) && Traffic(cfg, slots, ps)
    ensures var y := Arrived(cfg, slots, ps);
      && |GlobalHolders(y.leases)| <= slots.global
      && |TenantHolders(y.leases, t)| <= (if t in slots.tenants then slots.tenants[t] else 0)
      && (forall id :: Inside(CallOf(y.world, id)) ==> id in GlobalHolders(y.leases))
  {
    hide Traffic, Arrived, Sound, WorldOk, TenantsMatch, TenantHolders, CallOf;
    var y := Arrived(cfg, slots, ps);
    assert UsedBy(y, t) == |TenantHolders(y.leases, t)|;
  }

  /**
   * A slot is refused only when all of its kind are held: in every reachable state a
   * newcomer gets its tenant slot, and then its global slot, exactly while fewer than
   * the configured number have one, and a holder that is done can return both.
   */
  lemma SlotRefusedExactlyWhenFull(cfg: ValidatedConfig, slots: Slots, ps: seq<Step>, id: nat, t: nat)
    requires Sound(cfg) && Traffic(cfg, slots, ps)
    ensures var y := Arrived(cfg, slots, ps);
      && (LeaseOf(y, id).NoLease? && t in slots.tenants ==>
            (Possible(cfg, slots, y, TakeTenant(id, t)) <==> |TenantHolders(y.leases, t)| < slots.tenants[t]))
      && (LeaseOf(y, id).TenantOnly? ==>
            && (Possible(cfg, slots, y, TakeGlobal(id)) <==> |GlobalHolders(y.leases)| < slots.global)
            && (Possible(cfg, slots, y, RollBack(id)) <==> |GlobalHolders(y.leases)| == slots.global))
      && (LeaseOf(y, id).Both? && !Inside(CallOf(y.world, id)) ==> Possible(cfg, slots, y, ReturnGlobal(id)))
      && (LeaseOf(y, id).GlobalReturned? ==> Possible(cfg, slots, y, ReturnTenant(id)))
  {
    hide Traffic, Arrived, Sound, WorldOk, TenantsMatch, TenantHolders, GlobalHolders, CallOf;
    var y := Arrived(cfg, slots, ps);
    assert UsedBy(y, t) == |TenantHolders(y.leases, t)|;
  }
}
