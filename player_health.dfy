// PlayerHealth: the player's health with a dead flag; a dead player stays in the world as a
// spectator until its health is reset.

class PlayerHealth {
  const maxHealth: int
  var currentHealth: int
  var isDead: bool

  ghost predicate Valid()
    reads this
  {
    && maxHealth == 100
    && currentHealth >= 0
    // the only way to die sets health to exactly 0, and only a reset revives
    && (isDead ==> currentHealth == 0)
  }

  /** Field initialisers: SyncVar<int>() and SyncVar<bool>() start at 0 and false. */
  constructor ()
    ensures Valid() && currentHealth == 0 && !isDead
  {
    maxHealth := 100;
    currentHealth, isDead := 0, false;
  }

  method OnStartServer()
    requires Valid()
    modifies this
    ensures Valid() && currentHealth == maxHealth && !isDead
  {
    currentHealth := maxHealth;
    isDead := false;
  }

  /** ApplyDamage: ignored once dead; otherwise subtracts, and a result at or below zero is
      clamped to 0 and kills the player. */
  method ApplyDamage(damage: int)
    requires Valid()
    modifies this
    ensures Valid()
    ensures (currentHealth, isDead) == DamagedPlayer(old(currentHealth), old(isDead), damage)
  {
    if isDead {
      return;
    }
    currentHealth := currentHealth - damage;
    if currentHealth <= 0 {
      currentHealth := 0;
      Die();
    }
  }

  /** Die: sets the dead flag. Its all-dead scan decides nothing (the game-over decision is made by
      GameStateManager), so it has no further effect. */
  method Die()
    modifies this
    ensures isDead && currentHealth == old(currentHealth)
  {
    isDead := true;
  }

  function IsDead(): (r: bool)
    reads this
    ensures r == isDead
  {
    isDead
  }

  function IsAlive(): (r: bool)
    reads this
    ensures r == !IsDead()
  {
    !isDead
  }

  /** ResetHealthServerRpc: full health and alive again (sprites are re-enabled too). */
  method ResetHealth()
    requires Valid()
    modifies this
    ensures Valid() && currentHealth == maxHealth && !isDead
  {
    currentHealth := maxHealth;
    isDead := false;
  }
}

/** The health update of ApplyDamage on values: (health, dead) after `damage` hits a player with
    (health, dead). */
function DamagedPlayer(health: int, dead: bool, damage: int): (r: (int, bool))
  requires health >= 0 && (dead ==> health == 0)
  ensures r.0 >= 0
  ensures r.1 ==> r.0 == 0
  ensures dead ==> r == (health, dead)
  ensures !dead && health - damage > 0 ==> r == (health - damage, false)
  ensures !dead && health - damage <= 0 ==> r == (0, true)
{
  if dead then (health, dead)
  else if health - damage <= 0 then (0, true)
  else (health - damage, false)
}

/** Once dead, no sequence of damage revives the player or changes its health: death is permanent
    until ResetHealth. */
lemma {:induction false} DeathIsPermanent(damages: seq<int>)
  ensures ApplyAll(0, true, damages) == (0, true)
  decreases |damages|
{
  if |damages| > 0 {
    DeathIsPermanent(damages[1..]);
  }
}

/** A sequence of damage events applied in order. */
function ApplyAll(health: int, dead: bool, damages: seq<int>): (r: (int, bool))
  requires health >= 0 && (dead ==> health == 0)
  ensures r.0 >= 0 && (r.1 ==> r.0 == 0)
  decreases |damages|
{
  if |damages| == 0 then (health, dead)
  else
    var next := DamagedPlayer(health, dead, damages[0]);
    ApplyAll(next.0, next.1, damages[1..])
}

/** With non-negative damage, health never rises and, once it reaches 0, the player is dead. */
lemma {:induction false} HealthNeverRises(health: int, dead: bool, damages: seq<int>)
  requires health >= 0
  requires dead <==> health == 0
  requires forall i :: 0 <= i < |damages| ==> damages[i] >= 0
  ensures ApplyAll(health, dead, damages).0 <= health
  ensures ApplyAll(health, dead, damages).1 <==> ApplyAll(health, dead, damages).0 == 0
  decreases |damages|
{
  if |damages| > 0 {
    var next := DamagedPlayer(health, dead, damages[0]);
    HealthNeverRises(next.0, next.1, damages[1..]);
  }
}
