// WeaponManager: up to three auto-firing weapon slots. Each slot fires at an enemy in its range
// once its own cooldown has passed; upgrades raise per-weapon counters.

/** A WeaponConfig asset. Only the runtime upgrade counters are modelled; the float stats derived
    from them (CurrentFireRate, CurrentCooldown) are passed in where they are used. */
class WeaponConfig {
  var fireRateUpgrades: int
  var cooldownUpgrades: int

  constructor ()
    ensures fireRateUpgrades == 0 && cooldownUpgrades == 0
  {
    fireRateUpgrades, cooldownUpgrades := 0, 0;
  }
}

const MaxWeapons: nat := 3

/** A FireWeaponServerRpc sent for weapon slot `slot` aimed at enemy `target`. */
datatype FireRequest = FireRequest(slot: nat, target: int)

/** GetTargetForWeapon: slot i aims at the i-th nearest enemy in range, falling back to the nearest
    one when there are more weapons than enemies; callers pass a non-empty list. */
function GetTargetForWeapon(weaponIndex: nat, enemies: seq<int>): (target: int)
  requires |enemies| > 0
  ensures target in enemies
  ensures weaponIndex < |enemies| ==> target == enemies[weaponIndex]
  ensures weaponIndex >= |enemies| ==> target == enemies[0]
{
  if weaponIndex >= |enemies| then enemies[0] else enemies[weaponIndex]
}

/** Whether slot `k` fires when AutoFireAllWeapons reaches it with the fire times `last`:
    its cooldown has passed and at least one enemy is in its range. */
predicate SlotFires(ws: seq<WeaponConfig>, last: map<WeaponConfig, int>, now: int,
                    rates: seq<int>, inRange: seq<seq<int>>, k: nat)
  requires k < |ws| == |rates| == |inRange| && ws[k] in last
{
  now >= last[ws[k]] + rates[k] && |inRange[k]| > 0
}

/** The fire times and requests after AutoFireAllWeapons has processed the first `n` slots:
    `rates[k]` is CurrentFireRate of slot k in milliseconds and `inRange[k]` the enemies within
    its range, nearest first. */
function FirePlan(ws: seq<WeaponConfig>, last: map<WeaponConfig, int>, now: int,
                  rates: seq<int>, inRange: seq<seq<int>>, n: nat): (r: (map<WeaponConfig, int>, seq<FireRequest>))
  requires n <= |ws| == |rates| == |inRange|
  requires forall w :: w in ws ==> w in last
  ensures r.0.Keys == last.Keys
  ensures |r.1| <= n
  ensures forall j :: 0 <= j < |r.1| ==> r.1[j].slot < n
  decreases n
{
  if n == 0 then (last, [])
  else
    var prev := FirePlan(ws, last, now, rates, inRange, n - 1);
    var k := n - 1;
    if SlotFires(ws, prev.0, now, rates, inRange, k) then
      (prev.0[ws[k] := now], prev.1 + [FireRequest(k, GetTargetForWeapon(k, inRange[k]))])
    else prev
}

/** Every request aims at an enemy in its slot's range, as GetTargetForWeapon picks it, and the
    slots appear in increasing order. */
predicate RequestsJustified(plan: seq<FireRequest>, inRange: seq<seq<int>>)
{
  && (forall j :: 0 <= j < |plan| ==> plan[j].slot < |inRange| && |inRange[plan[j].slot]| > 0)
  && (forall j :: 0 <= j < |plan| && plan[j].slot < |inRange| && |inRange[plan[j].slot]| > 0 ==>
        plan[j].target == GetTargetForWeapon(plan[j].slot, inRange[plan[j].slot]))
  && (forall i, j :: 0 <= i < j < |plan| ==> plan[i].slot < plan[j].slot)
}

/** Every request of the plan comes from a slot that had an enemy in range and aims at one of
    them, and no slot fires twice. */
lemma {:induction false} FirePlanRequestsAreJustified(ws: seq<WeaponConfig>, last: map<WeaponConfig, int>, now: int,
                                                      rates: seq<int>, inRange: seq<seq<int>>, n: nat)
  requires n <= |ws| == |rates| == |inRange|
  requires forall w :: w in ws ==> w in last
  ensures RequestsJustified(FirePlan(ws, last, now, rates, inRange, n).1, inRange)
  decreases n
{
  if n > 0 {
    FirePlanRequestsAreJustified(ws, last, now, rates, inRange, n - 1);
    var fires := FirePlanLastStep(ws, last, now, rates, inRange, n);
    if fires {
      var req := FireRequest(n - 1, GetTargetForWeapon(n - 1, inRange[n - 1]));
      JustifiedSnoc(FirePlan(ws, last, now, rates, inRange, n - 1).1, req, inRange);
    }
  }
}

/** The requests after n slots: those after n - 1 slots, plus slot n - 1's own when it fires
    (which needs an enemy in its range). */
lemma FirePlanLastStep(ws: seq<WeaponConfig>, last: map<WeaponConfig, int>, now: int,
                       rates: seq<int>, inRange: seq<seq<int>>, n: nat) returns (fires: bool)
  requires 0 < n <= |ws| == |rates| == |inRange|
  requires forall w :: w in ws ==> w in last
  ensures fires ==> |inRange[n - 1]| > 0
  ensures FirePlan(ws, last, now, rates, inRange, n).1 ==
    FirePlan(ws, last, now, rates, inRange, n - 1).1 +
      (if fires then [FireRequest(n - 1, GetTargetForWeapon(n - 1, inRange[n - 1]))] else [])
{
  var prev := FirePlan(ws, last, now, rates, inRange, n - 1);
  fires := SlotFires(ws, prev.0, now, rates, inRange, n - 1);
  if !fires {
    assert prev.1 + [] == prev.1;
  }
}

/** A request from a later slot with a target in range keeps the plan justified. */
lemma JustifiedSnoc(plan: seq<FireRequest>, req: FireRequest, inRange: seq<seq<int>>)
  requires RequestsJustified(plan, inRange)
  requires req.slot < |inRange| && |inRange[req.slot]| > 0
  requires req.target == GetTargetForWeapon(req.slot, inRange[req.slot])
  requires forall j :: 0 <= j < |plan| ==> plan[j].slot < req.slot
  ensures RequestsJustified(plan + [req], inRange)
{
  var plan' := plan + [req];
  assert forall j :: 0 <= j < |plan| ==> plan'[j] == plan[j];
  assert plan'[|plan|] == req;
}

/** Whether slot `k` has a request in `plan`. */
predicate HasRequest(plan: seq<FireRequest>, k: nat)
{
  exists j :: 0 <= j < |plan| && plan[j].slot == k
}

/** With distinct weapon assets in the slots, whether a slot fires depends only on its own
    cooldown and range: a slot that is skipped does not stop the others, and the fire time of a
    weapon changes exactly when its slot fires. */
lemma {:induction false} SlotsFireIndependently(ws: seq<WeaponConfig>, last: map<WeaponConfig, int>, now: int,
                                                 rates: seq<int>, inRange: seq<seq<int>>, n: nat)
  requires n <= |ws| == |rates| == |inRange|
  requires forall w :: w in ws ==> w in last
  requires forall i, j :: 0 <= i < j < |ws| ==> ws[i] != ws[j]
  ensures forall k :: 0 <= k < n ==>
    (HasRequest(FirePlan(ws, last, now, rates, inRange, n).1, k) <==> SlotFires(ws, last, now, rates, inRange, k))
  ensures forall k :: 0 <= k < n ==>
    FirePlan(ws, last, now, rates, inRange, n).0[ws[k]] ==
      if SlotFires(ws, last, now, rates, inRange, k) then now else last[ws[k]]
  ensures forall k :: n <= k < |ws| ==> FirePlan(ws, last, now, rates, inRange, n).0[ws[k]] == last[ws[k]]
  decreases n
{
  if n > 0 {
    SlotsFireIndependently(ws, last, now, rates, inRange, n - 1);
    var prev := FirePlan(ws, last, now, rates, inRange, n - 1);
    var k := n - 1;
    assert prev.0[ws[k]] == last[ws[k]];
    var plan := FirePlan(ws, last, now, rates, inRange, n);
    if SlotFires(ws, prev.0, now, rates, inRange, k) {
      assert plan.1 == prev.1 + [FireRequest(k, GetTargetForWeapon(k, inRange[k]))];
      assert plan.1[|plan.1| - 1].slot == k;
      forall m | 0 <= m <= k
        ensures HasRequest(plan.1, m) <==> HasRequest(prev.1, m) || m == k
      {
        HasRequestSnoc(prev.1, FireRequest(k, GetTargetForWeapon(k, inRange[k])), m);
      }
    } else {
      assert plan == prev;
      assert !HasRequest(prev.1, k);
    }
  }
}

/** A slot has a request after one more is appended iff it had one or the new one is its. */
lemma HasRequestSnoc(plan: seq<FireRequest>, req: FireRequest, m: nat)
  ensures HasRequest(plan + [req], m) <==> HasRequest(plan, m) || req.slot == m
{
  var plan' := plan + [req];
  if HasRequest(plan', m) {
    var j :| 0 <= j < |plan'| && plan'[j].slot == m;
    if j < |plan| {
      assert plan[j] == plan'[j];
    }
  }
  if HasRequest(plan, m) {
    var j :| 0 <= j < |plan| && plan[j].slot == m;
    assert plan'[j] == plan[j];
  }
  if req.slot == m {
    assert plan'[|plan|] == req;
  }
}

class WeaponManager {
  var equippedWeapons: seq<WeaponConfig>
  var weaponLastFireTime: map<WeaponConfig, int>
  /** GetComponent<PlayerHealth>() of the owning player, looked up in Start. */
  var playerHealth: PlayerHealth?
  /** FireWeaponServerRpc calls sent, in order. */
  var fireRequests: seq<FireRequest>

  /** Every equipped weapon has a fire time (Start and AddWeapon record one). */
  ghost predicate Valid()
    reads this
  {
    forall w :: w in equippedWeapons ==> w in weaponLastFireTime
  }

  /** The weapons assigned in the inspector. */
  constructor (initial: seq<WeaponConfig>)
    ensures equippedWeapons == initial && weaponLastFireTime == map[]
    ensures playerHealth == null && fireRequests == []
  {
    equippedWeapons, weaponLastFireTime := initial, map[];
    playerHealth, fireRequests := null, [];
  }

  /** Start: look up the owner's PlayerHealth and give every equipped weapon fire time 0. The
      delayed search for a missing bullet pool is not modelled. */
  method Start(health: PlayerHealth?)
    modifies this
    ensures Valid() && playerHealth == health && equippedWeapons == old(equippedWeapons)
    ensures weaponLastFireTime.Keys == old(weaponLastFireTime).Keys + set w | w in equippedWeapons
    ensures forall w :: w in equippedWeapons ==> weaponLastFireTime[w] == 0
    ensures forall w :: w in old(weaponLastFireTime) && w !in equippedWeapons ==>
      weaponLastFireTime[w] == old(weaponLastFireTime)[w]
    ensures fireRequests == old(fireRequests)
  {
    playerHealth := health;
    for i := 0 to |equippedWeapons|
      invariant equippedWeapons == old(equippedWeapons) && playerHealth == health
      invariant fireRequests == old(fireRequests)
      invariant weaponLastFireTime.Keys == old(weaponLastFireTime).Keys + set w | w in equippedWeapons[..i]
      invariant forall w :: w in equippedWeapons[..i] ==> weaponLastFireTime[w] == 0
      invariant forall w :: w in old(weaponLastFireTime) && w !in equippedWeapons[..i] ==>
        weaponLastFireTime[w] == old(weaponLastFireTime)[w]
    {
      assert equippedWeapons[..i + 1] == equippedWeapons[..i] + [equippedWeapons[i]];
      weaponLastFireTime := weaponLastFireTime[equippedWeapons[i] := 0];
    }
    assert equippedWeapons[..|equippedWeapons|] == equippedWeapons;
  }

  /** AddWeapon: refused with three or more weapons equipped; otherwise the weapon is appended and
      its fire time is `now`. */
  method AddWeapon(weapon: WeaponConfig, now: int) returns (added: bool)
    requires Valid()
    modifies this
    ensures Valid() && added == (|old(equippedWeapons)| < MaxWeapons)
    ensures !added ==> equippedWeapons == old(equippedWeapons) && weaponLastFireTime == old(weaponLastFireTime)
    ensures added ==> equippedWeapons == old(equippedWeapons) + [weapon] &&
                      weaponLastFireTime == old(weaponLastFireTime)[weapon := now]
    ensures |old(equippedWeapons)| <= MaxWeapons ==> |equippedWeapons| <= MaxWeapons
    ensures playerHealth == old(playerHealth) && fireRequests == old(fireRequests)
  {
    if |equippedWeapons| >= MaxWeapons {
      return false;
    }
    equippedWeapons := equippedWeapons + [weapon];
    weaponLastFireTime := weaponLastFireTime[weapon := now];
    return true;
  }

  /** AutoFireAllWeapons: each slot in order either is skipped (cooldown, no enemy in range) or
      records its fire time and sends one fire request; the result is FirePlan over all slots. */
  method AutoFireAllWeapons(now: int, rates: seq<int>, inRange: seq<seq<int>>)
    requires Valid()
    requires |rates| == |inRange| == |equippedWeapons|
    modifies this
    ensures Valid() && equippedWeapons == old(equippedWeapons) && playerHealth == old(playerHealth)
    ensures var plan := FirePlan(equippedWeapons, old(weaponLastFireTime), now, rates, inRange, |equippedWeapons|);
      weaponLastFireTime == plan.0 && fireRequests == old(fireRequests) + plan.1
  {
    for i := 0 to |equippedWeapons|
      invariant equippedWeapons == old(equippedWeapons) && playerHealth == old(playerHealth)
      invariant Valid()
      invariant var plan := FirePlan(equippedWeapons, old(weaponLastFireTime), now, rates, inRange, i);
        weaponLastFireTime == plan.0 && fireRequests == old(fireRequests) + plan.1
    {
      var weapon := equippedWeapons[i];
      if now < weaponLastFireTime[weapon] + rates[i] {
        continue;
      }
      var enemiesInRange := inRange[i];
      if |enemiesInRange| == 0 {
        continue;
      }
      var target := GetTargetForWeapon(i, enemiesInRange);
      weaponLastFireTime := weaponLastFireTime[weapon := now];
      fireRequests := fireRequests + [FireRequest(i, target)];
    }
  }

  /** Update on the owning client: nothing when not the owner or when the owner is dead. */
  method Update(isOwner: bool, now: int, rates: seq<int>, inRange: seq<seq<int>>)
    requires Valid()
    requires |rates| == |inRange| == |equippedWeapons|
    modifies this
    ensures Valid() && equippedWeapons == old(equippedWeapons) && playerHealth == old(playerHealth)
    ensures !isOwner || (playerHealth != null && playerHealth.isDead) ==>
      weaponLastFireTime == old(weaponLastFireTime) && fireRequests == old(fireRequests)
    ensures isOwner && !(playerHealth != null && playerHealth.isDead) ==>
      var plan := FirePlan(equippedWeapons, old(weaponLastFireTime), now, rates, inRange, |equippedWeapons|);
      weaponLastFireTime == plan.0 && fireRequests == old(fireRequests) + plan.1
  {
    if !isOwner {
      return;
    }
    if playerHealth != null && playerHealth.IsDead() {
      return;
    }
    AutoFireAllWeapons(now, rates, inRange);
  }

  /** UpgradeFireRate: every equipped slot raises its weapon's counter by one, so a weapon asset
      equipped in several slots is raised once per slot; nothing else changes. */
  method UpgradeFireRate()
    modifies set w | w in equippedWeapons
    ensures forall w :: w in equippedWeapons ==>
      w.fireRateUpgrades == old(w.fireRateUpgrades) + multiset(equippedWeapons)[w]
    ensures forall w :: w in equippedWeapons ==> w.cooldownUpgrades == old(w.cooldownUpgrades)
  {
    for i := 0 to |equippedWeapons|
      invariant forall w :: w in equippedWeapons ==>
        w.fireRateUpgrades == old(w.fireRateUpgrades) + multiset(equippedWeapons[..i])[w]
      invariant forall w :: w in equippedWeapons ==> w.cooldownUpgrades == old(w.cooldownUpgrades)
    {
      assert equippedWeapons[..i + 1] == equippedWeapons[..i] + [equippedWeapons[i]];
      equippedWeapons[i].fireRateUpgrades := equippedWeapons[i].fireRateUpgrades + 1;
    }
    assert equippedWeapons[..|equippedWeapons|] == equippedWeapons;
  }

  /** UpgradeCooldown: the same, for the cooldown counter. */
  method UpgradeCooldown()
    modifies set w | w in equippedWeapons
    ensures forall w :: w in equippedWeapons ==>
      w.cooldownUpgrades == old(w.cooldownUpgrades) + multiset(equippedWeapons)[w]
    ensures forall w :: w in equippedWeapons ==> w.fireRateUpgrades == old(w.fireRateUpgrades)
  {
    for i := 0 to |equippedWeapons|
      invariant forall w :: w in equippedWeapons ==>
        w.cooldownUpgrades == old(w.cooldownUpgrades) + multiset(equippedWeapons[..i])[w]
      invariant forall w :: w in equippedWeapons ==> w.fireRateUpgrades == old(w.fireRateUpgrades)
    {
      assert equippedWeapons[..i + 1] == equippedWeapons[..i] + [equippedWeapons[i]];
      equippedWeapons[i].cooldownUpgrades := equippedWeapons[i].cooldownUpgrades + 1;
    }
    assert equippedWeapons[..|equippedWeapons|] == equippedWeapons;
  }
}

/** With no weapon asset in two slots, an upgrade raises each equipped weapon by exactly one. */
lemma DistinctSlotsUpgradeOnce(ws: seq<WeaponConfig>, w: WeaponConfig)
  requires forall i, j :: 0 <= i < j < |ws| ==> ws[i] != ws[j]
  requires w in ws
  ensures multiset(ws)[w] == 1
{
  var k :| 0 <= k < |ws| && ws[k] == w;
  assert ws == ws[..k] + [w] + ws[k + 1..];
  assert w !in ws[..k] && w !in ws[k + 1..];
  assert multiset(ws) == multiset(ws[..k]) + multiset{w} + multiset(ws[k + 1..]);
}
