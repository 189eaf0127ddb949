// EnemyChaser: a kamikaze enemy that homes on the nearest living player and, on contact, hits the
// player's PlayerController HP and kills itself.

const Int32MaxValue: int := 0x7FFF_FFFF
/** TARGET_UPDATE_INTERVAL = 0.5 s, as milliseconds. */
const TargetUpdateIntervalMs: int := 500

class EnemyChaser {
  const collisionDamage: int
  const diesOnCollision: bool
  var isInitialized: bool
  var spawnTime: int
  var targetUpdateTimer: int
  /** The targeted player's id, or null. */
  var targetPlayer: Option<int>
  /** GetComponent<EnemyHealth>() on the chaser itself. */
  var health: EnemyHealth?

  ghost predicate Valid()
    reads this, health, (if health != null then health.scoreManager else null)
  {
    && collisionDamage == 20 && diesOnCollision
    && (health != null ==> health.Valid())
  }

  constructor (h: EnemyHealth?)
    requires h != null ==> h.Valid()
    ensures Valid() && health == h
    ensures !isInitialized && targetUpdateTimer == 0 && targetPlayer.None?
  {
    collisionDamage, diesOnCollision := 20, true;
    isInitialized, spawnTime, targetUpdateTimer, targetPlayer := false, 0, 0, None;
    health := h;
  }

  /** OnStartServer: arms the 0.5 s protection and picks a first target (the random speed and
      offset only shape movement and are not modelled). */
  method OnStartServer(now: int, players: seq<PlayerView>)
    modifies this
    ensures health == old(health) && !isInitialized && spawnTime == now
    ensures targetUpdateTimer == old(targetUpdateTimer)
    ensures Retargeted(players, old(targetPlayer), targetPlayer)
  {
    spawnTime := now;
    isInitialized := false;
    targetPlayer := FindNearestTarget(players, targetPlayer);
  }

  /** FixedUpdate: before the protection window ends nothing happens. Afterwards the target is
      searched again every 0.5 s, a dead target is dropped and searched again at once, and with no
      target left it searches once more and does not move; otherwise it moves towards the target.
      `dt` is Time.fixedDeltaTime in milliseconds. */
  method FixedUpdate(now: int, dt: int, players: seq<PlayerView>) returns (moved: bool)
    requires DistinctIds(players)
    modifies this
    ensures health == old(health) && spawnTime == old(spawnTime)
    ensures !old(isInitialized) && now < spawnTime + SpawnProtectionMs ==>
      && !moved && !isInitialized
      && targetPlayer == old(targetPlayer) && targetUpdateTimer == old(targetUpdateTimer)
    ensures old(isInitialized) || now >= spawnTime + SpawnProtectionMs ==>
      && isInitialized
      && targetUpdateTimer ==
           if old(targetUpdateTimer) + dt >= TargetUpdateIntervalMs then 0 else old(targetUpdateTimer) + dt
    ensures moved ==> isInitialized && TargetState(players, targetPlayer) == TargetLive
    // the periodic search: the chaser moves exactly when some player can be targeted
    ensures isInitialized && old(targetUpdateTimer) + dt >= TargetUpdateIntervalMs ==>
      moved == SomeTargetable(players) && Retargeted(players, old(targetPlayer), targetPlayer)
    // between searches: a live target is kept and chased
    ensures isInitialized && old(targetUpdateTimer) + dt < TargetUpdateIntervalMs &&
            TargetState(players, old(targetPlayer)) == TargetLive ==>
      moved && targetPlayer == old(targetPlayer)
    // between searches: a dead target is replaced, and the chaser moves if anyone is targetable
    ensures isInitialized && old(targetUpdateTimer) + dt < TargetUpdateIntervalMs &&
            TargetState(players, old(targetPlayer)) == TargetDead ==>
      moved == SomeTargetable(players) && Retargeted(players, old(targetPlayer), targetPlayer)
    // between searches: a missing target is searched for, without moving this tick
    ensures isInitialized && old(targetUpdateTimer) + dt < TargetUpdateIntervalMs &&
            TargetState(players, old(targetPlayer)) == TargetMissing ==>
      !moved && Retargeted(players, old(targetPlayer), targetPlayer)
  {
    if !isInitialized {
      if now >= spawnTime + SpawnProtectionMs {
        isInitialized := true;
      } else {
        return false;
      }
    }

    targetUpdateTimer := targetUpdateTimer + dt;
    if targetUpdateTimer >= TargetUpdateIntervalMs {
      targetUpdateTimer := 0;
      targetPlayer := FindNearestTarget(players, targetPlayer);
    }

    if TargetState(players, targetPlayer) == TargetDead {
      targetPlayer := None;
      targetPlayer := FindNearestTarget(players, targetPlayer);
    }

    if TargetState(players, targetPlayer) == TargetMissing {
      // a target that is gone compares equal to null
      targetPlayer := FindNearestTarget(players, targetPlayer);
      return false;
    }

    // MoveTowardsPlayer
    moved := true;
  }

  /** OnCollisionEnter2D: ignored before initialisation and for anything not tagged "Player"; the
      player's PlayerController takes collisionDamage, then the chaser deals itself int.MaxValue
      damage with no attacker, so the kill credits the team only. */
  method OnCollisionEnter2D(tag: string, player: PlayerController?)
    requires Valid()
    requires player != null ==> player.Valid()
    modifies player, health, (if health != null then health.scoreManager else null)
    ensures Valid() && health == old(health)
    ensures player != null ==> player.Valid()
    ensures player != null ==>
      && player.playerName == old(player.playerName) && player.playerColor == old(player.playerColor)
      && player.lastFireTime == old(player.lastFireTime) && player.shotRequests == old(player.shotRequests)
    ensures !isInitialized || tag != "Player" ==>
      (player != null ==> unchanged(player)) && (health != null ==> unchanged(health))
    ensures isInitialized && tag == "Player" && player != null ==>
      player.currentHP == (if old(player.currentHP) - collisionDamage < 0 then 0 else old(player.currentHP) - collisionDamage)
    ensures isInitialized && tag == "Player" && health != null && old(health.isInitialized) && !old(health.despawned) &&
            old(health.currentHealth) <= Int32MaxValue ==>
      health.despawned && (old(health.scoreManager) != null ==> KillAwarded(old(health.scoreManager), NoPlayer))
    // the chaser's own EnemyHealth ignores the hit while protected or despawned
    ensures health != null && (!old(health.isInitialized) || old(health.despawned)) ==>
      && health.currentHealth == old(health.currentHealth) && health.despawned == old(health.despawned)
      && (old(health.scoreManager) != null ==> unchanged(old(health.scoreManager)))
    // a chaser with more than int.MaxValue health survives its own hit, and nothing is awarded
    ensures isInitialized && tag == "Player" && health != null && old(health.isInitialized) && !old(health.despawned) &&
            old(health.currentHealth) > Int32MaxValue ==>
      && health.currentHealth == old(health.currentHealth) - Int32MaxValue && !health.despawned
      && (old(health.scoreManager) != null ==> unchanged(old(health.scoreManager)))
  {
    if !isInitialized {
      return;
    }
    if tag == "Player" {
      if player != null {
        player.TakeDamage(collisionDamage);
      }
      if diesOnCollision {
        if health != null {
          health.TakeDamage(Int32MaxValue, NoPlayer);
        }
      }
    }
  }
}
