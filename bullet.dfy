// Bullet: a projectile that flies in the direction it was spawned with, retires after its
// lifetime or range, and on a hit damages an enemy (player bullets) or a player (enemy bullets).

/** A point or direction in the plane; the z coordinate of the 2D game is always 0. */
datatype Vec = Vec(x: real, y: real)

function Add(p: Vec, q: Vec): Vec { Vec(p.x + q.x, p.y + q.y) }
function Scale(p: Vec, k: real): Vec { Vec(p.x * k, p.y * k) }

/** Vector3.Distance(p, q) compared against a limit is modelled on the squared distance. */
function SquaredDistance(p: Vec, q: Vec): (r: real)
  ensures r >= 0.0
  ensures r == 0.0 <== p == q
{
  (p.x - q.x) * (p.x - q.x) + (p.y - q.y) * (p.y - q.y)
}

/** The bullet pool, an opaque collaborator over the network library's object pool. */
class BulletPool {
  constructor () {}
}

/** How a bullet left play: handed back to a pool, or despawned directly. */
datatype Retirement = ReturnedTo(pool: BulletPool) | Despawned

/** ReturnToPool's choice: the owner pool when there is one, otherwise a plain despawn. */
function RetirementFor(pool: BulletPool?): (r: Retirement)
  ensures r.ReturnedTo? <==> pool != null
  ensures r.ReturnedTo? ==> r.pool == pool
{
  if pool != null then ReturnedTo(pool) else Despawned
}

/** lifetime = 5 s, as milliseconds. */
const BulletLifetimeMs: int := 5000

class Bullet {
  /** speed = 10 units per second. */
  const speed: real
  const rotateWhileMoving: bool
  /** rotationSpeed = 360 degrees per second. */
  const rotationSpeed: real
  const lifetimeMs: int
  /** maxRange = 20 units. */
  const maxRange: real
  const damage: int
  const isPlayerBullet: bool

  var lifetimeTimer: int
  var ownerPool: BulletPool?
  var spawnPosition: Vec
  var movementDirection: Vec
  var ownerPlayer: PlayerRef
  /** transform.position and the z Euler angle of transform.rotation. */
  var position: Vec
  var rotationDeg: real
  /** The bullet is in play: initialised from the pool or spawned, and not yet returned. The
      source's `IsServerStarted` guards are modelled by this flag, since a returned bullet is
      disabled and receives no further callbacks. */
  var spawned: bool
  /** Every retirement of this bullet, in order. */
  var retirements: seq<Retirement>

  ghost predicate Valid()
    reads this
  {
    && speed == 10.0 && rotationSpeed == 360.0 && lifetimeMs == BulletLifetimeMs
    && maxRange == 20.0 && damage == 10
  }

  /** A bullet prefab instance at `position` with the given facing; `isPlayerBullet` and
      `rotateWhileMoving` are set per prefab. */
  constructor (isPlayerBullet: bool, rotateWhileMoving: bool, position: Vec, rotationDeg: real)
    ensures Valid()
    ensures this.isPlayerBullet == isPlayerBullet && this.rotateWhileMoving == rotateWhileMoving
    ensures this.position == position && this.rotationDeg == rotationDeg
    ensures !spawned && retirements == [] && ownerPool == null && ownerPlayer == NoPlayer
  {
    speed, rotationSpeed, lifetimeMs, maxRange, damage := 10.0, 360.0, BulletLifetimeMs, 20.0, 10;
    this.isPlayerBullet, this.rotateWhileMoving := isPlayerBullet, rotateWhileMoving;
    this.position, this.rotationDeg := position, rotationDeg;
    lifetimeTimer, ownerPool, spawnPosition, movementDirection := 0, null, position, Vec(0.0, 0.0);
    ownerPlayer, spawned, retirements := NoPlayer, false, [];
  }

  /** Initialize(pool, player): called right after the pool or ServerManager.Spawn put the bullet
      into play, so the bullet is spawned from here on; `up` is transform.up at that moment. The
      timer restarts and the spawn position and movement direction are captured. */
  method Initialize(pool: BulletPool?, player: PlayerRef, up: Vec)
    modifies this
    ensures ownerPool == pool && ownerPlayer == player && lifetimeTimer == 0
    ensures spawnPosition == position == old(position) && movementDirection == up
    ensures rotationDeg == old(rotationDeg) && retirements == old(retirements) && spawned
  {
    ownerPool := pool;
    ownerPlayer := player;
    lifetimeTimer := 0;
    spawnPosition := position;
    movementDirection := up;
    spawned := true;
  }

  /** ReturnToPool: back to the owner pool if there is one, otherwise despawned; either way the
      bullet leaves play. */
  method ReturnToPool()
    modifies this
    ensures retirements == old(retirements) + [RetirementFor(ownerPool)] && !spawned
    ensures ownerPool == old(ownerPool) && position == old(position) && movementDirection == old(movementDirection)
    ensures lifetimeTimer == old(lifetimeTimer) && rotationDeg == old(rotationDeg)
    ensures spawnPosition == old(spawnPosition) && ownerPlayer == old(ownerPlayer)
  {
    retirements := retirements + [RetirementFor(ownerPool)];
    spawned := false;
  }

  /** FixedUpdate with the fixed step `dtMs`: move along the captured direction, spin the sprite,
      then retire on lifetime, or else on range; never both in one tick. */
  method FixedUpdate(dtMs: int)
    requires Valid()
    modifies this
    ensures Valid() && movementDirection == old(movementDirection)
    ensures ownerPool == old(ownerPool) && spawnPosition == old(spawnPosition)
    ensures !old(spawned) ==>
      position == old(position) && lifetimeTimer == old(lifetimeTimer) && retirements == old(retirements)
    ensures old(spawned) ==>
      && position == Add(old(position), Scale(movementDirection, speed * (dtMs as real) / 1000.0))
      && lifetimeTimer == old(lifetimeTimer) + dtMs
    ensures old(spawned) && lifetimeTimer >= lifetimeMs ==>
      retirements == old(retirements) + [RetirementFor(ownerPool)]
    ensures old(spawned) && lifetimeTimer < lifetimeMs && SquaredDistance(position, spawnPosition) >= maxRange * maxRange ==>
      retirements == old(retirements) + [RetirementFor(ownerPool)]
    ensures old(spawned) && lifetimeTimer < lifetimeMs && SquaredDistance(position, spawnPosition) < maxRange * maxRange ==>
      retirements == old(retirements) && spawned
    ensures |retirements| <= |old(retirements)| + 1
  {
    if !spawned {
      return;
    }
    position := Add(position, Scale(movementDirection, speed * (dtMs as real) / 1000.0));
    if rotateWhileMoving {
      // visual only: movementDirection is not derived from the rotation
      rotationDeg := rotationDeg + rotationSpeed * (dtMs as real) / 1000.0;
    }
    lifetimeTimer := lifetimeTimer + dtMs;
    if lifetimeTimer >= lifetimeMs {
      ReturnToPool();
      return;
    }
    if SquaredDistance(position, spawnPosition) >= maxRange * maxRange {
      ReturnToPool();
    }
  }

  /** OnTriggerEnter2D against a collider with `tag` and its EnemyHealth / PlayerHealth
      components (null when absent). */
  method OnTriggerEnter2D(tag: string, enemy: EnemyHealth?, player: PlayerHealth?)
    requires Valid()
    requires enemy != null ==> enemy.Valid()
    requires player != null ==> player.Valid()
    modifies this, enemy, (if enemy != null then enemy.scoreManager else null), player
    ensures Valid() && ownerPool == old(ownerPool) && ownerPlayer == old(ownerPlayer)
    ensures enemy != null ==> enemy.Valid() && enemy.scoreManager == old(enemy.scoreManager)
    ensures player != null ==> player.Valid()
    ensures HitKind(old(spawned), isPlayerBullet, tag) == NoHit ==>
      && retirements == old(retirements) && spawned == old(spawned)
      && (enemy != null ==> unchanged(enemy) && (enemy.scoreManager != null ==> unchanged(enemy.scoreManager)))
      && (player != null ==> unchanged(player))
    ensures HitKind(old(spawned), isPlayerBullet, tag) == EnemyHit ==>
      && retirements == old(retirements) + [RetirementFor(ownerPool)] && !spawned
      && (player != null ==> unchanged(player))
      && (enemy != null ==> enemy.isInitialized == old(enemy.isInitialized))
      && (enemy != null && (!old(enemy.isInitialized) || old(enemy.despawned)) ==>
            && enemy.currentHealth == old(enemy.currentHealth) && enemy.despawned == old(enemy.despawned)
            && (enemy.scoreManager != null ==> unchanged(enemy.scoreManager)))
      && (enemy != null && old(enemy.isInitialized) && !old(enemy.despawned) ==>
            enemy.currentHealth == old(enemy.currentHealth) - damage)
      && (enemy != null && old(enemy.isInitialized) && !old(enemy.despawned) && enemy.currentHealth > 0 ==>
            !enemy.despawned && (enemy.scoreManager != null ==> unchanged(enemy.scoreManager)))
      && (enemy != null && old(enemy.isInitialized) && !old(enemy.despawned) && enemy.currentHealth <= 0 ==>
            enemy.despawned &&
            (old(enemy.scoreManager) != null ==> KillAwarded(old(enemy.scoreManager), ownerPlayer)))
    ensures HitKind(old(spawned), isPlayerBullet, tag) == PlayerHit ==>
      && retirements == old(retirements) + [RetirementFor(ownerPool)] && !spawned
      && (enemy != null ==> unchanged(enemy) && (enemy.scoreManager != null ==> unchanged(enemy.scoreManager)))
      && (player != null ==>
            (player.currentHealth, player.isDead) == DamagedPlayer(old(player.currentHealth), old(player.isDead), damage))
  {
    if !spawned {
      return;
    }
    if isPlayerBullet && tag == "Enemy" {
      if enemy != null {
        enemy.TakeDamage(damage, ownerPlayer);
      }
      ReturnToPool();
      return;
    }
    if !isPlayerBullet && tag == "Player" {
      if player != null {
        player.ApplyDamage(damage);
      }
      ReturnToPool();
      return;
    }
  }
}

/** Which branch of OnTriggerEnter2D a contact takes. */
datatype Hit = NoHit | EnemyHit | PlayerHit

/** A player bullet reacts only to "Enemy" and an enemy bullet only to "Player"; a bullet that is
    not in play reacts to nothing. */
function HitKind(spawned: bool, isPlayerBullet: bool, tag: string): (h: Hit)
  ensures h == EnemyHit <==> spawned && isPlayerBullet && tag == "Enemy"
  ensures h == PlayerHit <==> spawned && !isPlayerBullet && tag == "Player"
{
  if !spawned then NoHit
  else if isPlayerBullet && tag == "Enemy" then EnemyHit
  else if !isPlayerBullet && tag == "Player" then PlayerHit
  else NoHit
}
