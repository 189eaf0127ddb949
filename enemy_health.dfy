// EnemyHealth: enemy hit points with a 0.5 s spawn protection; death awards the kill and despawns.

const SpawnProtectionMs: int := 500

class EnemyHealth {
  const maxHealth: int
  /** Serialized but never read by the code. */
  const scoreValue: int
  var currentHealth: int
  var isInitialized: bool
  var spawnTime: int
  /** ServerManager.Despawn has run; a [Server] method on a despawned object returns at once. */
  var despawned: bool
  /** ScoreManager.Instance, which may be missing. */
  var scoreManager: ScoreManager?

  ghost predicate Valid()
    reads this, scoreManager
  {
    && maxHealth == 30 && scoreValue == 10
    && (scoreManager != null ==> scoreManager.Valid())
  }

  constructor (sm: ScoreManager?)
    requires sm != null ==> sm.Valid()
    ensures Valid() && scoreManager == sm
    ensures currentHealth == 0 && !isInitialized && !despawned
  {
    maxHealth, scoreValue := 30, 10;
    currentHealth, isInitialized, spawnTime, despawned := 0, false, 0, false;
    scoreManager := sm;
  }

  /** OnStartServer: full health and spawn protection armed from `now`. */
  method OnStartServer(now: int)
    requires Valid()
    modifies this
    ensures Valid() && scoreManager == old(scoreManager)
    ensures currentHealth == maxHealth && !isInitialized && spawnTime == now
    ensures despawned == old(despawned)
  {
    currentHealth := maxHealth;
    spawnTime := now;
    isInitialized := false;
  }

  /** Update: protection lifts once `now` reaches spawnTime + 0.5 s and is never re-armed. */
  method Update(now: int)
    requires Valid()
    modifies this
    ensures Valid() && scoreManager == old(scoreManager)
    ensures isInitialized == (old(isInitialized) || now >= spawnTime + SpawnProtectionMs)
    ensures currentHealth == old(currentHealth) && spawnTime == old(spawnTime)
    ensures despawned == old(despawned)
  {
    if !isInitialized {
      if now >= spawnTime + SpawnProtectionMs {
        isInitialized := true;
      }
    }
  }

  /** TakeDamage: ignored while protected; otherwise health drops by exactly `damage` with no
      clamp and no dead guard, and a result at or below zero runs Die. */
  method TakeDamage(damage: int, attacker: PlayerRef)
    requires Valid()
    modifies this, scoreManager
    ensures Valid() && scoreManager == old(scoreManager)
    ensures isInitialized == old(isInitialized) && spawnTime == old(spawnTime)
    ensures !old(isInitialized) || old(despawned) ==>
      currentHealth == old(currentHealth) && despawned == old(despawned) &&
      (scoreManager != null ==> unchanged(scoreManager))
    ensures old(isInitialized) && !old(despawned) ==> currentHealth == old(currentHealth) - damage
    ensures old(isInitialized) && !old(despawned) && currentHealth > 0 ==>
      !despawned && (scoreManager != null ==> unchanged(scoreManager))
    ensures old(isInitialized) && !old(despawned) && currentHealth <= 0 ==>
      despawned && (scoreManager != null ==> KillAwarded(scoreManager, attacker))
  {
    if despawned {
      return;
    }
    if !isInitialized {
      return;
    }
    currentHealth := currentHealth - damage;
    if currentHealth <= 0 {
      Die(attacker);
    }
  }

  /** Die: one AddKillScore (the attacker, or null for a kamikaze death), then despawn. Without a
      ScoreManager no score is awarded but the enemy still despawns. */
  method Die(killer: PlayerRef)
    requires Valid()
    modifies this, scoreManager
    ensures Valid() && scoreManager == old(scoreManager)
    ensures despawned
    ensures currentHealth == old(currentHealth) && isInitialized == old(isInitialized)
    ensures spawnTime == old(spawnTime)
    ensures scoreManager != null ==> KillAwarded(scoreManager, killer)
  {
    if scoreManager != null {
      if killer != NoPlayer {
        scoreManager.AddKillScore(killer);
      } else {
        // kamikaze death: team score only, no individual credit
        scoreManager.AddKillScore(NoPlayer);
      }
    }
    despawned := true;
  }
}

/** The ledger after exactly one AddKillScore(killer), relative to the state before the call. */
twostate predicate KillAwarded(sm: ScoreManager, killer: PlayerRef)
  reads sm
{
  && sm.teamScore == old(sm.teamScore) + sm.killReward
  && sm.totalKills == old(sm.totalKills) + 1
  && (ScoreKey(killer).None? ==> sm.playerScores == old(sm.playerScores))
  && (ScoreKey(killer).Some? ==>
        sm.playerScores == old(sm.playerScores)[ScoreKey(killer).value := old(sm.GetPlayerScore(killer)) + sm.killReward])
}
