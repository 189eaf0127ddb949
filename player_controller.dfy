// PlayerController: the player's replicated name, colour and a second HP counter (separate from
// PlayerHealth), plus the manual-fire cooldown gate.

class PlayerController {
  /** fireRate = 0.2 s, as milliseconds. */
  const fireRateMs: int
  var playerName: string
  var currentHP: int
  var playerColor: Color
  var lastFireTime: int
  /** The Fire input action. InitializeInput binds only "Movement", so this stays unbound. */
  var fireActionBound: bool
  /** ShootServerRpc requests sent by TryShoot, in order (the bullet spawn itself is the pool's). */
  var shotRequests: nat

  ghost predicate Valid()
    reads this
  {
    fireRateMs == 200 && !fireActionBound
  }

  /** Field initialisers: name "Player", 100 HP, white. */
  constructor ()
    ensures Valid()
    ensures playerName == "Player" && currentHP == 100 && playerColor == White
    ensures lastFireTime == 0 && shotRequests == 0
  {
    fireRateMs := 200;
    playerName, currentHP, playerColor := "Player", 100, White;
    lastFireTime, fireActionBound, shotRequests := 0, false, 0;
  }

  /** TakeDamageServerRpc: subtract, and clamp a negative result to 0. There is no upper clamp, so
      a negative `damage` raises HP past 100. */
  method TakeDamage(damage: int)
    requires Valid()
    modifies this
    ensures Valid()
    ensures currentHP == if old(currentHP) - damage < 0 then 0 else old(currentHP) - damage
    ensures currentHP >= 0
    ensures playerName == old(playerName) && playerColor == old(playerColor)
    ensures lastFireTime == old(lastFireTime) && shotRequests == old(shotRequests)
  {
    currentHP := currentHP - damage;
    if currentHP < 0 {
      currentHP := 0;
    }
  }

  method SetPlayerName(name: string)
    requires Valid()
    modifies this
    ensures Valid() && GetPlayerName() == name
    ensures currentHP == old(currentHP) && playerColor == old(playerColor)
    ensures lastFireTime == old(lastFireTime) && shotRequests == old(shotRequests)
  {
    playerName := name;
  }

  method SetPlayerColor(color: Color)
    requires Valid()
    modifies this
    ensures Valid() && GetPlayerColor() == color
    ensures currentHP == old(currentHP) && playerName == old(playerName)
    ensures lastFireTime == old(lastFireTime) && shotRequests == old(shotRequests)
  {
    playerColor := color;
  }

  function GetPlayerName(): string reads this { playerName }
  function GetCurrentHP(): int reads this { currentHP }
  function GetPlayerColor(): Color reads this { playerColor }

  /** TryShoot: nothing before lastFireTime + fireRate; otherwise records the time and requests a shot. */
  method TryShoot(now: int)
    modifies this
    ensures fireActionBound == old(fireActionBound)
    ensures now < old(lastFireTime) + fireRateMs ==>
      lastFireTime == old(lastFireTime) && shotRequests == old(shotRequests)
    ensures now >= old(lastFireTime) + fireRateMs ==>
      lastFireTime == now && shotRequests == old(shotRequests) + 1
    ensures playerName == old(playerName) && currentHP == old(currentHP) && playerColor == old(playerColor)
  {
    if now < lastFireTime + fireRateMs {
      return;
    }
    lastFireTime := now;
    shotRequests := shotRequests + 1;
  }

  /** Update (owner only): shoots only while the Fire action is bound and pressed, which Valid()
      rules out, so Update never shoots. Movement and mouse rotation are physics and are not
      modelled. */
  method Update(now: int, firePressed: bool)
    modifies this
    ensures fireActionBound == old(fireActionBound)
    ensures !old(fireActionBound) ==> lastFireTime == old(lastFireTime) && shotRequests == old(shotRequests)
    ensures playerName == old(playerName) && currentHP == old(currentHP) && playerColor == old(playerColor)
  {
    if fireActionBound && firePressed {
      TryShoot(now);
    }
  }
}
