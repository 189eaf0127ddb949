// EnemyShooter: a ranged enemy that keeps its distance from the nearest living player and fires
// a five-bullet star volley every 2.5 s while the player is within range.

/** tooCloseDistance = 4, tooFarDistance = 10 and shootingRange = 15 units. */
const TooCloseDistance: real := 4.0
const TooFarDistance: real := 10.0
const ShootingRange: real := 15.0
/** fireRate = 2.5 s and PATROL_CHANGE_INTERVAL = 3 s, as milliseconds. */
const ShooterFireRateMs: int := 2500
const PatrolChangeIntervalMs: int := 3000
const BulletCount: nat := 5

/** HandleMovement's three distance bands. */
datatype MoveBand = Retreat | Advance | Patrol

/** Retreat when the target is closer than 4, advance when it is farther than 10, otherwise
    patrol; the bands cover every distance and do not overlap. */
function Band(distance: real): (b: MoveBand)
  ensures b == Retreat <==> distance < TooCloseDistance
  ensures b == Advance <==> distance > TooFarDistance
  ensures b == Patrol <==> TooCloseDistance <= distance <= TooFarDistance
{
  if distance < TooCloseDistance then Retreat
  else if distance > TooFarDistance then Advance
  else Patrol
}

/** One bullet of a volley: its heading in degrees and where it came from. `pool` is the pool that
    supplied it and that it was initialised with; null means Instantiate plus ServerManager.Spawn. */
datatype Shot = Shot(angleDeg: real, pool: BulletPool?)

/** The star volley: `n` bullets at headings i * (360 / n), all from `pool`. */
function Volley(n: nat, pool: BulletPool?): (v: seq<Shot>)
  requires n > 0
  ensures |v| == n
{
  seq(n, i requires 0 <= i < n => Shot(i as real * (360.0 / n as real), pool))
}

/** The volley is a full star: it starts at heading 0, its headings rise strictly in equal
    steps and stay below 360, and every bullet shares the shooter's pool. */
lemma {:induction false} VolleyIsStar(n: nat, pool: BulletPool?)
  requires n > 0
  ensures Volley(n, pool)[0].angleDeg == 0.0
  ensures forall i :: 0 <= i < n ==> 0.0 <= Volley(n, pool)[i].angleDeg < 360.0
  ensures forall i, j :: 0 <= i < j < n ==> Volley(n, pool)[i].angleDeg < Volley(n, pool)[j].angleDeg
  ensures forall i :: 0 <= i < n ==> Volley(n, pool)[i].pool == pool
{
  VolleyFirstShot(n, pool);
  forall i | 0 <= i < n
    ensures 0.0 <= Volley(n, pool)[i].angleDeg < 360.0 && Volley(n, pool)[i].pool == pool
  {
    VolleyShotBelowFull(n, pool, i);
  }
  forall i, j | 0 <= i < j < n
    ensures Volley(n, pool)[i].angleDeg < Volley(n, pool)[j].angleDeg
  {
    VolleyShotsRise(n, pool, i, j);
  }
}

lemma VolleyFirstShot(n: nat, pool: BulletPool?)
  requires n > 0
  ensures Volley(n, pool)[0].angleDeg == 0.0
{
  assert Volley(n, pool)[0] == Shot(0 as real * (360.0 / n as real), pool);
}

lemma VolleyShotBelowFull(n: nat, pool: BulletPool?, i: nat)
  requires i < n
  ensures 0.0 <= Volley(n, pool)[i].angleDeg < 360.0 && Volley(n, pool)[i].pool == pool
{
  assert Volley(n, pool)[i] == Shot(i as real * (360.0 / n as real), pool);
  HeadingBelowFull(i, n);
}

lemma VolleyShotsRise(n: nat, pool: BulletPool?, i: nat, j: nat)
  requires i < j < n
  ensures Volley(n, pool)[i].angleDeg < Volley(n, pool)[j].angleDeg
{
  assert Volley(n, pool)[i] == Shot(i as real * (360.0 / n as real), pool);
  assert Volley(n, pool)[j] == Shot(j as real * (360.0 / n as real), pool);
  HeadingRises(i, j, n);
}

/** Heading i of an n-bullet star is below a full turn. */
lemma HeadingBelowFull(i: nat, n: nat)
  requires i < n
  ensures 0.0 <= i as real * (360.0 / n as real) < 360.0
{
  StepTimesCount(n);
  ProductBelow(i as real, n as real, 360.0 / n as real);
  BelowEqual(i as real * (360.0 / n as real), n as real * (360.0 / n as real), 360.0);
  ProductBelow(0.0, i as real + 1.0, 360.0 / n as real);
}

/** Headings of an n-bullet star rise with the bullet index. */
lemma HeadingRises(i: nat, j: nat, n: nat)
  requires i < j && n > 0
  ensures i as real * (360.0 / n as real) < j as real * (360.0 / n as real)
{
  StepTimesCount(n);
  ProductBelow(i as real, j as real, 360.0 / n as real);
}

/** n steps of 360 / n make a full turn. */
lemma StepTimesCount(n: nat)
  requires n > 0
  ensures 360.0 / n as real > 0.0 && n as real * (360.0 / n as real) == 360.0
{
}

lemma ProductBelow(a: real, b: real, k: real)
  requires a < b && k > 0.0
  ensures a * k < b * k
{
}

lemma BelowEqual(x: real, y: real, c: real)
  requires x < y && y == c
  ensures x < c
{
}

class EnemyShooter {
  const bulletCount: nat
  const fireRateMs: int
  /** bulletPrefab is assigned in the inspector and may be missing. */
  const hasBulletPrefab: bool
  var isInitialized: bool
  var spawnTime: int
  var targetUpdateTimer: int
  var targetPlayer: Option<int>
  var lastFireTime: int
  var patrolTimer: int
  /** How many times PickNewPatrolTarget has drawn a new random patrol point. */
  var patrolPicks: nat
  var bulletPool: BulletPool?
  /** Every bullet fired, in order. */
  var shots: seq<Shot>

  ghost predicate Valid()
    reads this
  {
    bulletCount == BulletCount && fireRateMs == ShooterFireRateMs
  }

  constructor (hasBulletPrefab: bool)
    ensures Valid() && this.hasBulletPrefab == hasBulletPrefab
    ensures !isInitialized && targetPlayer.None? && bulletPool == null && shots == []
    ensures lastFireTime == 0 && patrolTimer == 0 && targetUpdateTimer == 0
  {
    bulletCount, fireRateMs, this.hasBulletPrefab := BulletCount, ShooterFireRateMs, hasBulletPrefab;
    isInitialized, spawnTime, targetUpdateTimer, targetPlayer := false, 0, 0, None;
    lastFireTime, patrolTimer, patrolPicks, bulletPool, shots := 0, 0, 0, null, [];
  }

  /** OnStartServer: arm the protection, pick a target and a patrol point, and take the spawner's
      enemy bullet pool when a spawner exists (`spawnerPool` is GetEnemyBulletPool() of it). */
  method OnStartServer(now: int, players: seq<PlayerView>, spawnerFound: bool, spawnerPool: BulletPool?)
    modifies this
    ensures !isInitialized && spawnTime == now && patrolPicks == old(patrolPicks) + 1
    ensures bulletPool == if spawnerFound then spawnerPool else old(bulletPool)
    ensures Retargeted(players, old(targetPlayer), targetPlayer)
    ensures shots == old(shots) && lastFireTime == old(lastFireTime)
    ensures targetUpdateTimer == old(targetUpdateTimer) && patrolTimer == old(patrolTimer)
  {
    spawnTime := now;
    isInitialized := false;
    targetPlayer := FindNearestTarget(players, targetPlayer);
    patrolPicks := patrolPicks + 1;
    if spawnerFound {
      bulletPool := spawnerPool;
    }
  }

  /** HandleMovement for a target at `distance`: only the patrol band advances the patrol timer,
      re-picking every 3 s, and re-picks when the patrol point is reached (`nearPatrolTarget`,
      Vector2.Distance(rb.position, patrolTarget) < 1, given). The step itself is physics. */
  method HandleMovement(distance: real, dtMs: int, nearPatrolTarget: bool) returns (band: MoveBand)
    modifies this
    ensures band == Band(distance)
    ensures band != Patrol ==> patrolTimer == old(patrolTimer) && patrolPicks == old(patrolPicks)
    ensures band == Patrol && old(patrolTimer) + dtMs >= PatrolChangeIntervalMs ==> patrolTimer == 0
    ensures band == Patrol && old(patrolTimer) + dtMs < PatrolChangeIntervalMs ==> patrolTimer == old(patrolTimer) + dtMs
    ensures band == Patrol ==>
      patrolPicks == old(patrolPicks) + (if old(patrolTimer) + dtMs >= PatrolChangeIntervalMs then 1 else 0)
                                      + (if nearPatrolTarget then 1 else 0)
    ensures isInitialized == old(isInitialized) && targetPlayer == old(targetPlayer)
    ensures targetUpdateTimer == old(targetUpdateTimer) && spawnTime == old(spawnTime)
    ensures lastFireTime == old(lastFireTime) && shots == old(shots) && bulletPool == old(bulletPool)
  {
    if distance < TooCloseDistance {
      band := Retreat;
    } else if distance > TooFarDistance {
      band := Advance;
    } else {
      band := Patrol;
      patrolTimer := patrolTimer + dtMs;
      if patrolTimer >= PatrolChangeIntervalMs {
        patrolTimer := 0;
        patrolPicks := patrolPicks + 1;
      }
      if nearPatrolTarget {
        patrolPicks := patrolPicks + 1;
      }
    }
  }

  /** Whether TryShoot fires at time `now` with the target at `distance`. */
  predicate CanFire(now: int, distance: real)
    reads this
  {
    && now >= lastFireTime + fireRateMs
    && hasBulletPrefab
    && targetPlayer.Some?
    && distance <= ShootingRange
  }

  /** TryShoot: no volley within the cooldown, without a prefab, without a target or beyond
      shooting range; otherwise lastFireTime is set once and the whole star volley is fired. */
  method TryShoot(now: int, distance: real) returns (fired: bool)
    requires Valid()
    modifies this
    ensures Valid() && fired == old(CanFire(now, distance))
    ensures fired ==> lastFireTime == now && shots == old(shots) + Volley(bulletCount, bulletPool)
    ensures !fired ==> lastFireTime == old(lastFireTime) && shots == old(shots)
    ensures isInitialized == old(isInitialized) && targetPlayer == old(targetPlayer) && bulletPool == old(bulletPool)
    ensures targetUpdateTimer == old(targetUpdateTimer) && patrolTimer == old(patrolTimer)
    ensures patrolPicks == old(patrolPicks) && spawnTime == old(spawnTime)
  {
    if now < lastFireTime + fireRateMs {
      return false;
    }
    if !hasBulletPrefab {
      return false;
    }
    if targetPlayer.None? {
      return false;
    }
    if distance > ShootingRange {
      return false;
    }
    lastFireTime := now;
    var angleStep := 360.0 / bulletCount as real;
    var volley: seq<Shot> := [];
    for i := 0 to bulletCount
      invariant volley == Volley(bulletCount, bulletPool)[..i]
    {
      var angle := i as real * angleStep;
      // from the pool when there is one, otherwise instantiated and spawned; either way the
      // bullet is initialised with bulletPool
      assert Volley(bulletCount, bulletPool)[i] == Shot(angle, bulletPool);
      volley := volley + [Shot(angle, bulletPool)];
      assert Volley(bulletCount, bulletPool)[..i + 1] == Volley(bulletCount, bulletPool)[..i] + [Shot(angle, bulletPool)];
    }
    assert Volley(bulletCount, bulletPool)[..bulletCount] == Volley(bulletCount, bulletPool);
    shots := shots + volley;
    fired := true;
  }

  /** FixedUpdate: nothing before the protection ends; then the periodic retarget and the
      dead-target drop; with no target it re-searches and stops; otherwise it moves by band and
      tries to shoot. `targetDistance` is the distance to the target this tick, given. */
  method FixedUpdate(now: int, dtMs: int, players: seq<PlayerView>, targetDistance: real, nearPatrolTarget: bool)
    returns (band: Option<MoveBand>, fired: bool)
    requires Valid() && DistinctIds(players)
    modifies this
    ensures Valid() && bulletPool == old(bulletPool) && spawnTime == old(spawnTime)
    ensures !old(isInitialized) && now < spawnTime + SpawnProtectionMs ==>
      && band.None? && !fired && !isInitialized
      && targetPlayer == old(targetPlayer) && targetUpdateTimer == old(targetUpdateTimer)
      && patrolTimer == old(patrolTimer) && patrolPicks == old(patrolPicks)
    ensures old(isInitialized) || now >= spawnTime + SpawnProtectionMs ==>
      && isInitialized
      && targetUpdateTimer ==
           if old(targetUpdateTimer) + dtMs >= TargetUpdateIntervalMs then 0 else old(targetUpdateTimer) + dtMs
    // the periodic search: the shooter acts exactly when some player can be targeted
    ensures isInitialized && old(targetUpdateTimer) + dtMs >= TargetUpdateIntervalMs ==>
      band.Some? == SomeTargetable(players) && Retargeted(players, old(targetPlayer), targetPlayer)
    // between searches: a live target is kept
    ensures isInitialized && old(targetUpdateTimer) + dtMs < TargetUpdateIntervalMs &&
            TargetState(players, old(targetPlayer)) == TargetLive ==>
      band.Some? && targetPlayer == old(targetPlayer)
    // between searches: a dead target is replaced, and the shooter acts if anyone is targetable
    ensures isInitialized && old(targetUpdateTimer) + dtMs < TargetUpdateIntervalMs &&
            TargetState(players, old(targetPlayer)) == TargetDead ==>
      band.Some? == SomeTargetable(players) && Retargeted(players, old(targetPlayer), targetPlayer)
    // between searches: a missing target is searched for, and nothing else happens this tick
    ensures isInitialized && old(targetUpdateTimer) + dtMs < TargetUpdateIntervalMs &&
            TargetState(players, old(targetPlayer)) == TargetMissing ==>
      band.None? && Retargeted(players, old(targetPlayer), targetPlayer)
    ensures band.None? ==> !fired && shots == old(shots) && lastFireTime == old(lastFireTime)
    ensures band.None? ==> patrolTimer == old(patrolTimer) && patrolPicks == old(patrolPicks)
    ensures band.Some? ==> band.value == Band(targetDistance) && targetPlayer.Some?
    ensures band.Some? ==> TargetState(players, targetPlayer) == TargetLive
    ensures fired ==> band.Some? && lastFireTime == now && shots == old(shots) + Volley(bulletCount, bulletPool)
    ensures !fired ==> shots == old(shots) && lastFireTime == old(lastFireTime)
    ensures band.Some? ==> (fired <==> now >= old(lastFireTime) + fireRateMs && hasBulletPrefab && targetDistance <= ShootingRange)
  {
    band, fired := None, false;
    if !isInitialized {
      if now >= spawnTime + SpawnProtectionMs {
        isInitialized := true;
      } else {
        return;
      }
    }

    UpdateTarget(dtMs, players);

    if TargetState(players, targetPlayer) == TargetMissing {
      targetPlayer := FindNearestTarget(players, targetPlayer);
      return;
    }

    var b := HandleMovement(targetDistance, dtMs, nearPatrolTarget);
    band := Some(b);
    fired := TryShoot(now, targetDistance);
  }

  /** The target upkeep of FixedUpdate: every 0.5 s the nearest target is searched again, and a
      target whose PlayerHealth says dead is dropped and searched again at once. */
  method UpdateTarget(dtMs: int, players: seq<PlayerView>)
    requires DistinctIds(players)
    modifies this
    ensures targetUpdateTimer ==
      if old(targetUpdateTimer) + dtMs >= TargetUpdateIntervalMs then 0 else old(targetUpdateTimer) + dtMs
    ensures old(targetUpdateTimer) + dtMs < TargetUpdateIntervalMs && TargetState(players, old(targetPlayer)) != TargetDead ==>
      targetPlayer == old(targetPlayer)
    ensures old(targetUpdateTimer) + dtMs >= TargetUpdateIntervalMs || TargetState(players, old(targetPlayer)) == TargetDead ==>
      && Retargeted(players, old(targetPlayer), targetPlayer)
      && (TargetState(players, targetPlayer) == TargetLive <==> SomeTargetable(players))
    ensures TargetState(players, targetPlayer) != TargetDead
    ensures isInitialized == old(isInitialized) && spawnTime == old(spawnTime) && bulletPool == old(bulletPool)
    ensures lastFireTime == old(lastFireTime) && shots == old(shots)
    ensures patrolTimer == old(patrolTimer) && patrolPicks == old(patrolPicks)
  {
    targetUpdateTimer := targetUpdateTimer + dtMs;
    if targetUpdateTimer >= TargetUpdateIntervalMs {
      targetUpdateTimer := 0;
      targetPlayer := FindNearestTarget(players, targetPlayer);
    }

    if TargetState(players, targetPlayer) == TargetDead {
      targetPlayer := None;
      targetPlayer := FindNearestTarget(players, targetPlayer);
    }
  }
}
