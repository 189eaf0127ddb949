# Showroom_Tango rule layer in Dafny

Showroom_Tango is a two-player co-operative arena shooter built on Unity and FishNet. This
project models its server-authoritative rule layer and proves properties of that model. The
layer covers:

- the lobby readiness machine and its 3-2-1-0 countdown;
- the session state machine (Lobby, Playing, GameOver, Victory), with its per-frame win and lose
  checks and the ordered restart sequence;
- the wave spawner's bookkeeping;
- the team and per-player score ledger;
- the damage and death rules of enemies, players, bullets, chasers and shooters;
- the weapon slot rules;
- the leaderboard list update and its text formatting;
- the end-of-game highscore submission rule and the HUD panel mapping.

Each C# component is one Dafny file and becomes a `class`:

- replicated `SyncVar`s and `SyncDictionary`s are plain fields and maps;
- server RPCs are direct method calls;
- every coroutine is an explicit phase value, advanced by one method per `WaitForSeconds` that
  elapses;
- time is an integer number of milliseconds passed in by the caller;
- `Random`, distances, tag searches and `GetComponent` lookups are parameters.

The loops of the source are Dafny loops with invariants, each proved against a specification
function:

- the nearest-player search;
- the spawn-point retry;
- the alive-player count;
- the despawn loops of the restart;
- the ready scan of the lobby;
- the leaderboard `StringBuilder` loop;
- the highscore submission loop.

Files:

| file | source |
|---|---|
| common.dfy | `Option`, `Color`, padding and decimal formatting shared by the UI |
| score_manager.dfy | ScoreManager.cs |
| enemy_health.dfy | EnemyHealth.cs |
| player_health.dfy | PlayerHealth.cs |
| player_controller.dfy | PlayerController.cs |
| bullet.dfy | Bullet.cs (BulletPool.cs as an opaque collaborator) |
| targeting.dfy | FindNearestPlayer, shared by EnemyChaser.cs and EnemyShooter.cs |
| enemy_chaser.dfy | EnemyChaser.cs |
| enemy_shooter.dfy | EnemyShooter.cs |
| weapon_manager.dfy | WeaponManager.cs, WeaponConfig.cs (the upgrade counters) |
| enemy_spawner.dfy | EnemySpawner.cs |
| game_state_manager.dfy | GameStateManager.cs |
| lobby_manager.dfy | LobbyManager.cs |
| highscore_manager.dfy | HighscoreManager.cs |
| highscore_ui.dfy | HighscoreUI.cs |
| hud_manager.dfy | HUDManager.cs |

Notes on behaviour the model keeps as the code has it:

- **A client disconnect keeps the lobby entry.**
  - `LobbyManager.OnStopClient` only re-runs the readiness check.
  - The handler's role as the disconnect hook suggests the entry should be removed; the model
    keeps it, as the code does.
- **Enemy health is not clamped at 0 and has no dead guard**, unlike `PlayerHealth`, which clamps
  at 0 and ignores damage once dead.
  - `EnemyHealth.TakeDamage` subtracts exactly the damage, so 20 then 15 leaves -5.
  - A second `Die` is prevented only by the despawn itself.
  - The model tracks the despawn as the `despawned` flag.
- **Chaser contact damage goes to `PlayerController.currentHP`, not to `PlayerHealth`.**
- **The victory check hard-codes `currentWave >= 3`.**
- **The wave-clear poll counts every object tagged "Enemy"**, not only the enemies of the
  current wave.
- **Victory and defeat can both hold in one `GameStateManager.Update`.**
  - The state passes through `Victory` to `GameOver`.
  - Both changes are notified, in that order.
  - `VictoryThenDefeatShowsBothPanels` shows that a HUD receiving both notifications keeps both
    end panels active.
- **A restart is accepted from any state.**
  - `GameStateManager.ResumeRestart` calls `LobbyManager.ResetLobby`.
  - `ResetLobby` sets `countdownActive` false and forgets the countdown handle without stopping
    that coroutine. The model keeps the running countdowns in `running`, and
    `LobbyManager.ResetLobby` states `running == old(running)`.
  - So a restart requested during a running lobby countdown does not stop it, and the stale
    countdown still reaches `StartGameFromLobby`.
  - The only caller of the restart RPC is HUDManager's restart button, on the end panels.
- **`ScoreManager.OnStartServer` zeroes the team score and the kill count but does not clear the
  per-player map.**
- **Clearing a wave does not award `AddWaveBonus`;** nothing in the modelled code calls it.
- **`EnemySpawner.RestartWaves` starts a new `WaveSequence` without stopping a running one.**

## Model

| member | source | states |
|---|---|---|
| ScoreKey | Assets/_Project/Scripts/Gameflow/ScoreManager.cs:104-110 | a killer yields a per-player key exactly when it is a player object with a NetworkObject |
| ScoreOf | Assets/_Project/Scripts/Gameflow/ScoreManager.cs:151-158 | 0 for a null player, a missing NetworkObject or an absent id; otherwise the stored score |
| ScoreManager.OnStartServer | Assets/_Project/Scripts/Gameflow/ScoreManager.cs:91-96 | team score and kills become 0; the per-player map is untouched |
| ScoreManager.AddKillScore | Assets/_Project/Scripts/Gameflow/ScoreManager.cs:99-119 | team score +10 and kills +1 for every kill; a keyed killer's entry becomes its old score (0 if absent) +10; a null killer leaves the map unchanged |
| ScoreManager.AddWaveBonus | Assets/_Project/Scripts/Gameflow/ScoreManager.cs:122-125 | team score +50, nothing else changes |
| ScoreManager.AddScore | Assets/_Project/Scripts/Gameflow/ScoreManager.cs:128-131 | team score + points, nothing else changes |
| ScoreManager.ResetScore | Assets/_Project/Scripts/Gameflow/ScoreManager.cs:139-144 | team score and kills 0, per-player map empty |
| ScoreManager.GetPlayerScore | Assets/_Project/Scripts/Gameflow/ScoreManager.cs:151-158 | the lookup agrees with ScoreOf on the current map |
| EnemyHealth.OnStartServer | Assets/_Project/Scripts/Enemies/EnemyHealth.cs:61-67 | health 30, protection armed from now |
| EnemyHealth.Update | Assets/_Project/Scripts/Enemies/EnemyHealth.cs:79-88 | initialised afterwards iff it was already or now >= spawn time + 500 ms (never re-armed); health unchanged |
| EnemyHealth.TakeDamage | Assets/_Project/Scripts/Enemies/EnemyHealth.cs:91-101 | a no-op while protected; otherwise health drops by exactly the damage with no clamp, and at <= 0 the enemy despawns with one kill awarded to the attacker |
| EnemyHealth.Die | Assets/_Project/Scripts/Enemies/EnemyHealth.cs:104-124 | exactly one AddKillScore with the killer (null for team-only credit) when a ScoreManager exists, then despawned in every case |
| PlayerHealth.OnStartServer | Assets/_Project/Scripts/Player/PlayerHealth.cs:53-58 | health 100, alive |
| PlayerHealth.ApplyDamage | Assets/_Project/Scripts/Player/PlayerHealth.cs:73-88 | the new (health, dead) pair is DamagedPlayer of the old one: dead is a no-op, a drop to <= 0 is clamped to 0 and kills |
| PlayerHealth.Die | Assets/_Project/Scripts/Player/PlayerHealth.cs:91-95 | sets the dead flag and nothing else |
| PlayerHealth.IsDead | Assets/_Project/Scripts/Player/PlayerHealth.cs:133 | returns the dead flag |
| PlayerHealth.IsAlive | Assets/_Project/Scripts/Player/PlayerHealth.cs:134 | is the negation of IsDead |
| PlayerHealth.ResetHealth | Assets/_Project/Scripts/Player/PlayerHealth.cs:137-147 | health 100, alive again |
| DamagedPlayer | Assets/_Project/Scripts/Player/PlayerHealth.cs:73-88 | health never negative, dead implies 0 health, dead is a no-op, and the two damage cases |
| DeathIsPermanent | Assets/_Project/Scripts/Player/PlayerHealth.cs:75-79 | no sequence of damage revives a dead player or changes its health |
| HealthNeverRises | Assets/_Project/Scripts/Player/PlayerHealth.cs:81-88 | under non-negative damage health never rises, and dead holds exactly at 0 health |
| PlayerController.constructor | Assets/_Project/Scripts/Player/PlayerController.cs:69-71 | name "Player", 100 HP, white |
| PlayerController.TakeDamage | Assets/_Project/Scripts/Player/PlayerController.cs:250-257 | HP becomes old - damage clamped below at 0 (no upper clamp), nothing else changes |
| PlayerController.SetPlayerName | Assets/_Project/Scripts/Player/PlayerController.cs:244-247 | the getter returns exactly the stored name, nothing else changes |
| PlayerController.SetPlayerColor | Assets/_Project/Scripts/Player/PlayerController.cs:238-241 | the getter returns exactly the stored colour, nothing else changes |
| PlayerController.TryShoot | Assets/_Project/Scripts/Player/PlayerController.cs:265-274 | nothing before lastFireTime + 200 ms; otherwise lastFireTime := now and one shot request |
| PlayerController.Update | Assets/_Project/Scripts/Player/PlayerController.cs:168-187 | with the Fire action unbound (it is never assigned) no shot is ever requested |
| SquaredDistance | Assets/_Project/Scripts/Projectiles/Bullet.cs:103 | non-negative, 0 for equal points |
| RetirementFor | Assets/_Project/Scripts/Projectiles/Bullet.cs:111-122 | returned to the owner pool iff there is one, otherwise despawned |
| Bullet.Initialize | Assets/_Project/Scripts/Projectiles/Bullet.cs:70-79 | timer 0; pool, owner, spawn position and direction recorded |
| Bullet.ReturnToPool | Assets/_Project/Scripts/Projectiles/Bullet.cs:111-122 | exactly one retirement, to the pool or a despawn, and nothing else changes |
| Bullet.FixedUpdate | Assets/_Project/Scripts/Projectiles/Bullet.cs:83-108 | the direction is never changed by the rotation; motion along it; lifetime checked before range; at most one retirement per tick |
| Bullet.OnTriggerEnter2D | Assets/_Project/Scripts/Projectiles/Bullet.cs:124-149 | player bullet on "Enemy": a protected or despawned enemy and the ledger are unchanged, otherwise health drops by the damage, a hit leaving health above 0 leaves the ledger unchanged and a killing hit despawns with the owner credited; enemy bullet on "Player": DamagedPlayer; both then retire; otherwise nothing changes |
| HitKind | Assets/_Project/Scripts/Projectiles/Bullet.cs:128-147 | EnemyHit iff a live player bullet meets "Enemy"; PlayerHit iff a live enemy bullet meets "Player" |
| NearestAlive | Assets/_Project/Scripts/Enemies/EnemyChaser.cs:141-160 | none iff no player is targetable; otherwise IsFirstNearest: a targetable player no farther than any targetable one and strictly nearer than every targetable one before it |
| FirstNearestUnique | Assets/_Project/Scripts/Enemies/EnemyChaser.cs:146-162 | at most one index is the first nearest player, so the running-minimum search has one answer |
| FindNearestTarget | Assets/_Project/Scripts/Enemies/EnemyChaser.cs:137-163 | Retargeted: unchanged with no players, null iff none is targetable, otherwise the id of the first nearest player; with distinct ids the new target is live iff some player is targetable |
| RetargetedIsDetermined | Assets/_Project/Scripts/Enemies/EnemyChaser.cs:137-163 | two targets that both satisfy Retargeted for the same players and previous target are equal |
| NearestIsLive | Assets/_Project/Scripts/Enemies/EnemyChaser.cs:118-126 | with distinct ids, the id of the first nearest player is judged live by the dead-target check |
| TargetState | Assets/_Project/Scripts/Enemies/EnemyChaser.cs:118-132 | null is missing; otherwise missing iff no player has the id, live iff the first player with the id is targetable, dead iff that player is dead |
| FindById | Assets/_Project/Scripts/Enemies/EnemyChaser.cs:118-132 | missing iff no player has the id; live iff the first player with the id is targetable; dead iff it is not |
| EnemyChaser.OnStartServer | Assets/_Project/Scripts/Enemies/EnemyChaser.cs:78-93 | protection armed from now; the target is Retargeted from the previous one |
| EnemyChaser.FixedUpdate | Assets/_Project/Scripts/Enemies/EnemyChaser.cs:95-135 | nothing before 500 ms; the timer wraps to 0 at 500 ms; when the timer fires the target is Retargeted and the chaser moves iff some player is targetable; between searches a live target is kept and chased, a dead one is Retargeted (moving iff someone is targetable), a missing one is Retargeted without moving; it only moves towards a live target |
| EnemyChaser.OnCollisionEnter2D | Assets/_Project/Scripts/Enemies/EnemyChaser.cs:175-197 | ignored before initialisation or off "Player"; the PlayerController HP takes exactly 20 clamped at 0 and its other fields are kept; the chaser's own int.MaxValue hit despawns it with team-only credit, is ignored while its EnemyHealth is protected or despawned, and leaves it alive with no award when its health exceeds int.MaxValue |
| Band | Assets/_Project/Scripts/Enemies/EnemyShooter.cs:169-201 | retreat iff distance < 4, advance iff > 10, patrol iff 4 <= d <= 10 |
| Volley | Assets/_Project/Scripts/Enemies/EnemyShooter.cs:225-243 | exactly bulletCount shots |
| VolleyIsStar | Assets/_Project/Scripts/Enemies/EnemyShooter.cs:225-243 | the shots start at angle 0, lie in [0, 360), strictly increase, and all come from the bullet pool given |
| VolleyShotBelowFull | Assets/_Project/Scripts/Enemies/EnemyShooter.cs:222-225 | shot i of the volley has a heading in [0, 360) and the shooter's pool |
| VolleyShotsRise | Assets/_Project/Scripts/Enemies/EnemyShooter.cs:222-225 | a later shot of the volley has a strictly larger heading |
| HeadingBelowFull | Assets/_Project/Scripts/Enemies/EnemyShooter.cs:222-225 | i steps of 360 / n stay below a full turn for i < n |
| HeadingRises | Assets/_Project/Scripts/Enemies/EnemyShooter.cs:222-225 | i steps of 360 / n are fewer degrees than j steps for i < j |
| EnemyShooter.OnStartServer | Assets/_Project/Scripts/Enemies/EnemyShooter.cs:83-100 | protection armed, the spawner's pool taken when found, one patrol pick; the target is Retargeted from the previous one |
| EnemyShooter.HandleMovement | Assets/_Project/Scripts/Enemies/EnemyShooter.cs:169-201 | the band is Band(distance); patrol timer and picks change only in the patrol band, as the source counts them |
| EnemyShooter.TryShoot | Assets/_Project/Scripts/Enemies/EnemyShooter.cs:211-250 | fires iff cooldown expired, prefab present and within range 15; a volley appends exactly the 5 shots and sets lastFireTime once |
| EnemyShooter.FixedUpdate | Assets/_Project/Scripts/Enemies/EnemyShooter.cs:102-143 | nothing before 500 ms; the timer wraps at 500 ms; a search when the timer fires, or a dead target, gives a Retargeted target and the shooter acts iff some player is targetable; a live target between searches is kept; a missing one is Retargeted and nothing else happens; it moves by Band and fires iff the TryShoot gates hold, only at a live target |
| EnemyShooter.UpdateTarget | Assets/_Project/Scripts/Enemies/EnemyShooter.cs:118-133 | the refresh timer wraps to 0 at 500 ms; a search when it fires or a dead target gives a Retargeted target that is live iff some player is targetable; otherwise the target is kept; with distinct ids the target is never left dead; movement, shooting and patrol state are untouched |
| GetTargetForWeapon | Assets/_Project/Scripts/Player/WeaponManager.cs:171-180 | es[i] when i < \|es\|, otherwise es[0] |
| FirePlan | Assets/_Project/Scripts/Player/WeaponManager.cs:118-144 | fire times keep their keys; at most one request per processed slot |
| FirePlanRequestsAreJustified | Assets/_Project/Scripts/Player/WeaponManager.cs:120-127 | every request targets an enemy in range of its weapon |
| FirePlanLastStep | Assets/_Project/Scripts/Player/WeaponManager.cs:120-143 | the requests after n slots are those after n - 1 slots plus, when slot n - 1 fires, its one request at an enemy in range |
| JustifiedSnoc | Assets/_Project/Scripts/Player/WeaponManager.cs:120-127 | a request from a later slot aimed by GetTargetForWeapon at a non-empty range keeps every request justified and the slots increasing |
| SlotsFireIndependently | Assets/_Project/Scripts/Player/WeaponManager.cs:120-143 | a slot requests iff it is off cooldown with an enemy in range, independently of the other slots; exactly those slots get fire time now |
| HasRequestSnoc | Assets/_Project/Scripts/Player/WeaponManager.cs:120-127 | after one more request a slot has a request iff it had one or the new request is its |
| WeaponManager.Start | Assets/_Project/Scripts/Player/WeaponManager.cs:65-78 | every equipped weapon's fire time starts at 0, other entries kept |
| WeaponManager.AddWeapon | Assets/_Project/Scripts/Player/WeaponManager.cs:209-220 | false and no change with 3 equipped; otherwise append, fire time now, true; never more than 3 |
| WeaponManager.AutoFireAllWeapons | Assets/_Project/Scripts/Player/WeaponManager.cs:118-144 | the new fire times and requests are exactly FirePlan's |
| WeaponManager.Update | Assets/_Project/Scripts/Player/WeaponManager.cs:109-116 | a non-owner or a dead owner fires nothing; otherwise AutoFireAllWeapons |
| WeaponManager.UpgradeFireRate | Assets/_Project/Scripts/Player/WeaponManager.cs:222-228 | each equipped weapon's fire-rate counter rises by the number of slots it holds; cooldown counters unchanged |
| WeaponManager.UpgradeCooldown | Assets/_Project/Scripts/Player/WeaponManager.cs:230-236 | each equipped weapon's cooldown counter rises by the number of slots it holds; fire-rate counters unchanged |
| DistinctSlotsUpgradeOnce | Assets/_Project/Scripts/Player/WeaponManager.cs:222-236 | with distinct weapons in the slots, each counter rises by exactly 1 |
| WavesUpTo | Assets/_Project/Scripts/Enemies/EnemySpawner.cs:112-125 | the cleared-wave list 1..n in increasing order |
| ArchetypeFor | Assets/_Project/Scripts/Enemies/EnemySpawner.cs:157-160 | a chaser iff the roll is below the chaser weight 0.7 |
| GetRandomSpawnPoint | Assets/_Project/Scripts/Enemies/EnemySpawner.cs:179-195 | 1 to 10 attempts; every earlier candidate was too close; the last candidate is returned even if too close, only after 10 attempts |
| EnemySpawner.constructor | Assets/_Project/Scripts/Enemies/EnemySpawner.cs:67-72 | wave 1, inactive, no spawns, waves [60, 67, 107] |
| EnemySpawner.SpawnRandomEnemy | Assets/_Project/Scripts/Enemies/EnemySpawner.cs:155-177 | one attempt; exactly SpawnFor(currentWave, roll) is appended: the rolled archetype when its prefab exists, nothing when it is missing (no retry) |
| EnemySpawner.SpawnFor | Assets/_Project/Scripts/Enemies/EnemySpawner.cs:157-176 | at most one record, and a record is of the archetype ArchetypeFor picks, in the given wave |
| EnemySpawner.BeginWave | Assets/_Project/Scripts/Enemies/EnemySpawner.cs:113-114 | currentWave := w, waveActive, one attempt, and the spawn record grows by exactly SpawnFor(w, roll) |
| EnemySpawner.InitialDelayElapsed | Assets/_Project/Scripts/Enemies/EnemySpawner.cs:110-114 | after the 2 s delay wave 1 starts with one attempt, appending exactly SpawnFor(1, roll) |
| EnemySpawner.SpawnGapElapsed | Assets/_Project/Scripts/Enemies/EnemySpawner.cs:134-152 | while fewer than waveEnemyCounts[w-1] were issued, one more attempt appending exactly SpawnFor(w, roll); otherwise waveActive false, nothing spawned, and the poll begins |
| EnemySpawner.DrainPoll | Assets/_Project/Scripts/Enemies/EnemySpawner.cs:116-130 | wave w is cleared only after its spawn loop and a poll that sees zero enemies; cleared waves are 1..w in order; the 3 s gap only when w < 3 |
| EnemySpawner.InterWaveElapsed | Assets/_Project/Scripts/Enemies/EnemySpawner.cs:112-114 | the next wave starts, with currentWave + 1, one attempt, appending exactly SpawnFor(currentWave, roll) |
| EnemySpawner.StopSpawning | Assets/_Project/Scripts/Enemies/EnemySpawner.cs:224-228 | waveActive false, sequence stopped; wave, spawn record, attempt count and cleared waves kept |
| EnemySpawner.RestartWaves | Assets/_Project/Scripts/Enemies/EnemySpawner.cs:231-236 | wave 1, inactive, a fresh sequence waiting for its initial delay |
| EnemySpawner.OnGameStateChanged | Assets/_Project/Scripts/Enemies/EnemySpawner.cs:94-106 | Playing restarts the waves, Lobby stops spawning, other states change nothing |
| PlayerDespawns | Assets/_Project/Scripts/Gameflow/GameStateManager.cs:215-223 | exactly the spawned player objects are despawned |
| EnemyRemovals | Assets/_Project/Scripts/Gameflow/GameStateManager.cs:225-237 | one removal per enemy, a despawn iff it is a spawned network object, otherwise a destroy |
| OrderedConcat | Assets/_Project/Scripts/Gameflow/GameStateManager.cs:208-252 | two stage-ordered runs in adjacent stage ranges concatenate to an ordered run |
| PlayerDespawnsOrdered | Assets/_Project/Scripts/Gameflow/GameStateManager.cs:215-223 | the player loop emits only player despawn steps |
| EnemyRemovalsOrdered | Assets/_Project/Scripts/Gameflow/GameStateManager.cs:225-237 | the enemy loop emits only enemy removal steps |
| RestartRunsInOrder | Assets/_Project/Scripts/Gameflow/GameStateManager.cs:208-252 | score reset, player despawns, enemy removals, stop spawning, state Lobby, ResetLobby occur in this order |
| AliveCount | Assets/_Project/Scripts/Gameflow/GameStateManager.cs:160-170 | at most the player count, and 0 iff no player has a PlayerHealth that is alive |
| CountAlivePlayers | Assets/_Project/Scripts/Gameflow/GameStateManager.cs:160-170 | the loop's count equals AliveCount |
| AliveCountSnoc | Assets/_Project/Scripts/Gameflow/GameStateManager.cs:160-170 | one more player adds 1 exactly when it is alive |
| DespawnPlayers | Assets/_Project/Scripts/Gameflow/GameStateManager.cs:215-223 | the loop emits PlayerDespawns |
| RemoveEnemies | Assets/_Project/Scripts/Gameflow/GameStateManager.cs:225-237 | the loop emits EnemyRemovals |
| GameStateManager.constructor | Assets/_Project/Scripts/Gameflow/GameStateManager.cs:65 | the initial state is Lobby |
| GameStateManager.ApplyStateVisibility | Assets/_Project/Scripts/Gameflow/GameStateManager.cs:186-199 | lobbyRoot active iff Lobby, gameRoot active iff not, for the roots that exist |
| GameStateManager.SetState | Assets/_Project/Scripts/Gameflow/GameStateManager.cs:180-184 | the state is set; only a real change notifies, updates visibility and drives the spawner |
| GameStateManager.OnStartServer | Assets/_Project/Scripts/Gameflow/GameStateManager.cs:109-114 | server start forces Lobby |
| GameStateManager.StartGameFromLobby | Assets/_Project/Scripts/Gameflow/GameStateManager.cs:128-137 | Lobby becomes Playing and the waves restart; any other state changes nothing |
| GameStateManager.Update | Assets/_Project/Scripts/Gameflow/GameStateManager.cs:116-125 | checks only while Playing; the final state is GameOver when the party is wiped even if victory also held |
| GameStateManager.CheckVictoryCondition | Assets/_Project/Scripts/Gameflow/GameStateManager.cs:140-152 | Victory iff wave >= 3, no wave active and zero enemies |
| GameStateManager.CheckGameOverCondition | Assets/_Project/Scripts/Gameflow/GameStateManager.cs:155-178 | GameOver iff no players or none alive; a player without PlayerHealth counts as not alive |
| GameStateManager.RequestRestart | Assets/_Project/Scripts/Gameflow/GameStateManager.cs:202-242 | accepted in any state: score reset, players and enemies removed, spawning stopped with the wave, spawn record, attempt count and cleared waves kept, logged in that order |
| GameStateManager.ResumeRestart | Assets/_Project/Scripts/Gameflow/GameStateManager.cs:244-251 | after the yield: state Lobby, then ResetLobby unreadies every seat and clears the countdown |
| CountdownSchedule | Assets/_Project/Scripts/UI/Lobby/LobbyManager.cs:256-259 | the values 3, 2, 1, 0 in order |
| AllPlayersReady | Assets/_Project/Scripts/UI/Lobby/LobbyManager.cs:205-215 | true iff every seat is ready |
| LobbyManager.constructor | Assets/_Project/Scripts/UI/Lobby/LobbyManager.cs:67-75 | no seats, no countdown, 3 s duration |
| LobbyManager.GetPlayerData | Assets/_Project/Scripts/UI/Lobby/LobbyManager.cs:334-342 | a copy with exactly the same entries |
| LobbyManager.RegisterPlayer | Assets/_Project/Scripts/UI/Lobby/LobbyManager.cs:121-152 | a null, duplicate or third connection changes nothing; otherwise a new unready entry with index = prior count; never more than 2 seats |
| LobbyManager.UpdatePlayerName | Assets/_Project/Scripts/UI/Lobby/LobbyManager.cs:155-164 | only the caller's name changes; an unknown connection changes nothing |
| LobbyManager.UpdatePlayerColor | Assets/_Project/Scripts/UI/Lobby/LobbyManager.cs:167-180 | only the caller's colour changes; an unknown connection changes nothing |
| LobbyManager.ToggleReady | Assets/_Project/Scripts/UI/Lobby/LobbyManager.cs:183-193 | flips exactly the caller's ready flag, then the countdown runs iff the lobby is full and ready |
| LobbyManager.CheckAllPlayersReady | Assets/_Project/Scripts/UI/Lobby/LobbyManager.cs:196-225 | afterwards the countdown is active iff full and all ready; it starts only from inactive and is cancelled only from active |
| LobbyManager.StartCountdown | Assets/_Project/Scripts/UI/Lobby/LobbyManager.cs:228-235 | active, time 3, a new countdown coroutine replacing (stopping) the old one |
| LobbyManager.StopNamedCountdown | Assets/_Project/Scripts/UI/Lobby/LobbyManager.cs:230-233 | the coroutine the handle names is no longer running, all others are; the handle is kept |
| LobbyManager.LaunchCountdown | Assets/_Project/Scripts/UI/Lobby/LobbyManager.cs:253-260 | the new coroutine gets the next id and the handle, sets the countdown active and writes 3 before its first wait |
| LobbyManager.CancelCountdown | Assets/_Project/Scripts/UI/Lobby/LobbyManager.cs:238-247 | inactive, handle cleared, its coroutine stopped |
| LobbyManager.OnStopClient | Assets/_Project/Scripts/UI/Lobby/LobbyManager.cs:300-308 | the entries are kept; on the server countdownActive ends equal to LobbyReady, a ready lobby without a countdown starts one, an unready lobby with one cancels it, and otherwise the countdown is untouched; off the server nothing changes |
| LobbyManager.CountdownStep | Assets/_Project/Scripts/UI/Lobby/LobbyManager.cs:253-281 | each second publishes the next value with the countdown active; after 3, 2, 1, 0 it calls StartGameFromLobby once |
| LobbyManager.WriteNextCountdownValue | Assets/_Project/Scripts/UI/Lobby/LobbyManager.cs:256-264 | one countdown value published; finished iff it was the last, and then one StartGame call counted |
| LobbyManager.CountdownTick | Assets/_Project/Scripts/UI/Lobby/LobbyManager.cs:257-260 | the counter steps down by one and that value is written; the coroutine keeps running |
| LobbyManager.CountdownEnd | Assets/_Project/Scripts/UI/Lobby/LobbyManager.cs:263-264 | 0 is written, the coroutine ends having written the whole schedule 3, 2, 1, 0, and StartGame is called once |
| LobbyManager.ResetLobby | Assets/_Project/Scripts/UI/Lobby/LobbyManager.cs:284-298 | every seat unready with key, name, colour and index kept; countdown inactive and its handle cleared |
| UnreadyAll | Assets/_Project/Scripts/UI/Lobby/LobbyManager.cs:287-293 | the loop over the keys clears every ready flag and keeps the rest |
| ScheduleExtends | Assets/_Project/Scripts/UI/Lobby/LobbyManager.cs:256-262 | publishing one value extends the schedule prefix by its next element |
| CoroutineStarted | Assets/_Project/Scripts/UI/Lobby/LobbyManager.cs:253-260 | a new coroutine that has written 3 keeps the coroutine invariant |
| CoroutineStopped | Assets/_Project/Scripts/UI/Lobby/LobbyManager.cs:240-243 | stopping a coroutine keeps the coroutine invariant |
| CoroutineStepped | Assets/_Project/Scripts/UI/Lobby/LobbyManager.cs:257-260 | a coroutine that writes its next value keeps the coroutine invariant |
| CoroutineFinished | Assets/_Project/Scripts/UI/Lobby/LobbyManager.cs:263 | a coroutine that writes 0 has written the whole schedule, and removing it keeps the invariant |
| SeatAdded | Assets/_Project/Scripts/UI/Lobby/LobbyManager.cs:142-151 | a new connection seated at index = seat count keeps keys, order and indices consistent |
| InsertByScore | Assets/_Project/Scripts/Persistence/HighscoreManager.cs:177-180 | sorted input stays sorted with exactly one more entry |
| SortByScoreDesc | Assets/_Project/Scripts/Persistence/HighscoreManager.cs:180 | sorted by non-increasing score and a permutation of the input |
| TruncationKeepsTheBest | Assets/_Project/Scripts/Persistence/HighscoreManager.cs:183-186 | the kept prefix is sorted and every dropped entry scores <= every kept one |
| DroppedScoresNoHigher | Assets/_Project/Scripts/Persistence/HighscoreManager.cs:180-186 | in a score-ordered list an entry past position n scores no higher than one before it |
| TopTenAfterSubmit | Assets/_Project/Scripts/Persistence/HighscoreManager.cs:177-186 | sorted, at most 10, old length + 1 below 10, a sub-multiset of old entries plus the new one, drops only the lowest |
| LoadHighscoresJSON | Assets/_Project/Scripts/Persistence/HighscoreManager.cs:197-210 | empty for a missing file or a null parse, otherwise the stored list |
| LoadHighscoresPHPResult | Assets/_Project/Scripts/Persistence/HighscoreManager.cs:147-162 | empty for a failed request or a null parse, otherwise the received list |
| HighscoreManager.SubmitScoreJSON | Assets/_Project/Scripts/Persistence/HighscoreManager.cs:166-195 | the cache and the file hold TopTenAfterSubmit of the loaded list, and the written file loads back as the cached list |
| HighscoreManager.SubmitScore | Assets/_Project/Scripts/Persistence/HighscoreManager.cs:87-97 | one submission logged; the JSON path updates the list, the PHP path posts and leaves file and cache alone |
| HighscoreManager.LoadHighscores | Assets/_Project/Scripts/Persistence/HighscoreManager.cs:99-109 | the callback gets the JSON or PHP result; nothing is delivered without a callback |
| SubmitKeepsTheTop | Assets/_Project/Scripts/Persistence/HighscoreManager.cs:177-186 | the head of the new list scores at least the new score and every old score |
| HeadIsBest | Assets/_Project/Scripts/Persistence/HighscoreManager.cs:180 | the head of a score-ordered list scores at least every entry in it |
| Spaces | Assets/_Project/Scripts/UI/HighscoreUI.cs:86-93 | n blanks |
| PadLeft | Assets/_Project/Scripts/UI/HighscoreUI.cs:86-93 | the width (or the length, if longer) with the text right-aligned after blanks |
| PadRight | Assets/_Project/Scripts/UI/HighscoreUI.cs:86-93 | the width (or the length, if longer) with the text left-aligned before blanks |
| DigitChar | Assets/_Project/Scripts/UI/HighscoreUI.cs:86 | a digit character of the given value |
| DigitValue | Assets/_Project/Scripts/UI/HighscoreUI.cs:86 | a digit's value is below 10 |
| NatToString | Assets/_Project/Scripts/UI/HighscoreUI.cs:86 | non-empty decimal digits without a leading zero |
| IntToString | Assets/_Project/Scripts/UI/HUDManager.cs:271-277 | the decimal text of an int, with "-" for negatives |
| NatToStringRoundTrip | Assets/_Project/Scripts/UI/HighscoreUI.cs:86 | reading the digits back gives the number |
| NatToStringInjective | Assets/_Project/Scripts/UI/HighscoreUI.cs:86 | different ranks print differently |
| DisplayName | Assets/_Project/Scripts/UI/HighscoreUI.cs:89-91 | names of up to 15 characters are kept; longer ones become their first 15 plus ".."; always narrower than the 18-column field |
| RowLines | Assets/_Project/Scripts/UI/HighscoreUI.cs:84-94 | one row per entry shown |
| AllRows | Assets/_Project/Scripts/UI/HighscoreUI.cs:84-94 | one row per entry |
| LeaderboardShape | Assets/_Project/Scripts/UI/HighscoreUI.cs:81-94 | header, blank line, then min(n, 10) rows in list order with rank i+1 |
| LeaderboardRow | Assets/_Project/Scripts/UI/HighscoreUI.cs:84-93 | line i + 2 of the leaderboard is the row for entry i with rank i + 1 |
| JoinLinesPrefix | Assets/_Project/Scripts/UI/HighscoreUI.cs:81-96 | text of the first k lines is a prefix of the whole text |
| LeaderboardStartsWithHeader | Assets/_Project/Scripts/UI/HighscoreUI.cs:81-82 | the text starts with "--- TOP 10 HIGHSCORES ---" and a blank line |
| RankField | Assets/_Project/Scripts/UI/HighscoreUI.cs:86 | rank 1-9 is a blank then the digit, rank 10 is "10": always 2 columns |
| FiveFields | Assets/_Project/Scripts/UI/HighscoreUI.cs:93 | fields of widths 2, 2, 18 and 1 followed by a last field can be read back by position |
| RowColumns | Assets/_Project/Scripts/UI/HighscoreUI.cs:86-93 | rank in columns 0-1, ". ", the name padded to 18, a blank, the score padded to 8 |
| JoinSnoc | Assets/_Project/Scripts/UI/HighscoreUI.cs:93 | appending a line appends its text and a newline |
| AppendRow | Assets/_Project/Scripts/UI/HighscoreUI.cs:84-94 | one loop iteration appends exactly row i+1 |
| FormatRow | Assets/_Project/Scripts/UI/HighscoreUI.cs:86-93 | the formatted line, with the name cut to 15 characters plus ".." when longer, is exactly Row |
| JoinTwo | Assets/_Project/Scripts/UI/HighscoreUI.cs:81-82 | header and blank line as text |
| BuildLeaderboard | Assets/_Project/Scripts/UI/HighscoreUI.cs:79-96 | the StringBuilder loop produces exactly LeaderboardText |
| HighscoreUI.DisplayFallbackText | Assets/_Project/Scripts/UI/HighscoreUI.cs:99-105 | the text shown when the text widget exists |
| HighscoreUI.OnHighscoresLoaded | Assets/_Project/Scripts/UI/HighscoreUI.cs:71-97 | a null or empty list shows exactly "No highscores yet", otherwise the leaderboard text |
| HighscoreUI.RefreshHighscores | Assets/_Project/Scripts/UI/HighscoreUI.cs:58-69 | a missing manager shows "Highscores unavailable"; otherwise "Loading..." then the loaded result |
| SubmittedName | Assets/_Project/Scripts/UI/HUDManager.cs:264 | the controller's name, or "Player" without a controller |
| SubmittedScore | Assets/_Project/Scripts/UI/HUDManager.cs:265-267 | the individual score if > 0, otherwise the team score |
| HighscoreSubmissions | Assets/_Project/Scripts/UI/HUDManager.cs:251-268 | no players: exactly ("Team", teamScore); otherwise exactly one pair per player, in order |
| SubmissionsKeepCredit | Assets/_Project/Scripts/UI/HUDManager.cs:261-268 | each player is credited their own positive score, otherwise the team score, never negative with a non-negative team score |
| PanelsAfter | Assets/_Project/Scripts/UI/HUDManager.cs:206-245 | GameOver shows the game-over panel, Victory the victory panel, Lobby and Playing hide both; missing panels stay as they were |
| VictoryThenDefeatShowsBothPanels | Assets/_Project/Scripts/UI/HUDManager.cs:206-245 | Victory followed by GameOver leaves both end panels shown |
| PlayerSlot.ShowPlayer | Assets/_Project/Scripts/UI/HUDManager.cs:173-204 | ShowedPlayer: nothing without an HP bar; the score text "Score: " with the player's ledger score when there are a text and a ScoreManager, the name text the controller's name when there are a PlayerHealth, a controller and a text; otherwise each text unchanged |
| PlayerSlot.ShowAbsent | Assets/_Project/Scripts/UI/HUDManager.cs:160-170 | ShowedAbsent: "Score: 0" when there is a score text, the name text unchanged |
| HUDManager.constructor | Assets/_Project/Scripts/UI/HUDManager.cs:87-88 | both end panels hidden at start |
| HUDManager.UpdatePlayerHP | Assets/_Project/Scripts/UI/HUDManager.cs:148-171 | slot 1 and slot 2 satisfy ShowedPlayer for players 1 and 2 with the ledger when there is a ScoreManager, and ShowedAbsent when that player is missing |
| HUDManager.HandleGameStateChange | Assets/_Project/Scripts/UI/HUDManager.cs:206-245 | the panels follow PanelsAfter; an end screen writes the final score and submits the highscores |
| HUDManager.UpdateFinalScore | Assets/_Project/Scripts/UI/HUDManager.cs:271-277 | "FINAL SCORE: " followed by the team score |
| HUDManager.SubmitHighscores | Assets/_Project/Scripts/UI/HUDManager.cs:247-269 | exactly HighscoreSubmissions is submitted, in order; nothing without a ScoreManager or HighscoreManager |

## Left out

- Networking: FishNet replication, RPC delivery, ownership and observers are not modelled. SyncVars
  are plain fields; RPCs are direct calls, with the `IsServerStarted` guards taken as true, except
  in `LobbyManager.OnStopClient`, where it is a parameter, and in `Bullet` (next line).
- Bullet.FixedUpdate, Bullet.OnTriggerEnter2D: the `IsServerStarted` guards are modelled as "the
  bullet is in play" (`spawned`), set by `Initialize` and cleared by `ReturnToPool`, because a
  pooled or despawned bullet is disabled. The model therefore excludes a second trigger callback
  on a bullet that has already retired, which the source's guard alone would not.
- BulletPool.cs is an opaque collaborator. `RetirementFor` records which pool a bullet goes back
  to; the pool's counters and FishNet's object pool are not modelled.
- Floating point geometry and physics are not modelled: positions, normalisation, rotation,
  `Atan2`, patrol offsets, speeds, `OverlapCircleAll` and the HP bar's fill ratio. Distances and
  "in range" are given values; a bullet's motion uses unbounded reals.
- Randomness: `Random.value`, `Random.Range` and spawn-point sampling are parameters.
  `GetRandomSpawnPoint` takes the ten candidate points and whether each is too close.
- Engine timing: every `WaitForSeconds` and `Time.time` is an explicit phase and an integer
  millisecond clock, advanced by the caller. The scheduler that interleaves coroutines is not
  modelled.
- Integers are unbounded. The 32-bit C# `int` score, HP and kill counters would wrap after 2^31;
  the model does not wrap them.
- `score.ToString("N0")` is culture-dependent, so the leaderboard takes it as a parameter `n0`.
- Tie order: `List.Sort` is unstable. `SortByScoreDesc` fixes one order of equal scores, and its
  contract (sorted, a permutation) does not depend on which.
- Leaderboard I/O: `UnityWebRequest`, file access and `JsonUtility` are not modelled. The stored
  file and the web response are values, and the PHP callback is delivered synchronously.
- `HighscoreManager.SubmitScore`: its timestamp (`DateTime.Now`) is a parameter. `SubmitHighscores`
  uses one timestamp for every submission of the same call.
- HUD event subscriptions are left out, and so are the texts of `UpdateScore` and `UpdateWave`.
  Those are display glue; `HandleGameStateChange` is called with the new state directly.
- WeaponManager's delayed `FindBulletPoolDelayed` search and `FireWeaponServerRpc` bullet spawning
  are not modelled. A fire is recorded as a request (weapon slot, target).
- WeaponConfig's float fire-rate and cooldown formulas are not modelled; only its upgrade counters
  are.
- `EnemyHealth.scoreValue` is kept as a constant; the code never reads it.
- Unity's overloaded `==` on destroyed objects is modelled as the target id being absent from the
  current player list (`TargetState`). Player objects are identified by id, and
  `FindGameObjectsWithTag` lists each object once; the enemies' `FixedUpdate` and
  `EnemyShooter.UpdateTarget` state this as `DistinctIds` of the player list.
- EnemyShooter.TryShoot: a pool whose `GetBullet` returns null makes the source dereference null
  (EnemyShooter.cs:236-244); the model takes every pool request to yield a bullet.
- DisplayName, PadLeft, PadRight, LeaderboardText: C# strings count UTF-16 code units, so
  `Length`, `Substring(0, 15)`, `PadLeft` and `PadRight` can cut or pad a name with characters
  outside the Basic Multilingual Plane differently, and the cut can split a surrogate pair. Dafny
  `char`s are Unicode scalar values, so the model counts characters. `Environment.NewLine` is taken
  as "\n".
- EnemySpawner.RestartWaves: starts a new `WaveSequence` without stopping a running one, so two
  sequences could run side by side. The model replaces the phase instead. This is sound for the
  modelled flows: Playing is entered only from Lobby, and entering Lobby stops spawning first.
- EnemySpawner.SpawnGapElapsed: the 45 s spread of a wave's spawns (`waveDuration / totalEnemies`)
  is not modelled. Each spawn gap is one step.
- Presentation, audio, menus, camera, preferences, scene loading and the other glue components
  are not part of this model.
