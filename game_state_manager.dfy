// GameStateManager: the server's game-state machine (Lobby -> Playing -> GameOver | Victory ->
// Lobby), the per-frame victory and defeat checks, and the two-frame restart sequence.

datatype GameState = Lobby | Playing | GameOver | Victory

/** A player or enemy GameObject as the restart sequence sees it: its NetworkObject, if it has
    one, and whether that is spawned. */
datatype NetworkObjectState = NoNetworkObject | NetworkObject(isSpawned: bool)
datatype SceneObject = SceneObject(id: int, networkObject: NetworkObjectState)

predicate IsSpawnedNetworkObject(o: SceneObject)
{
  o.networkObject.NetworkObject? && o.networkObject.isSpawned
}

/** The side effects of RestartGameSequence, in the order they happen. */
datatype RestartStep =
  | ScoreReset
  | PlayerDespawned(playerId: int)
  | EnemyDespawned(enemyId: int)
  | EnemyDestroyed(enemyId: int)
  | SpawningStopped
  | StateSetToLobby
  | LobbyReset

/** The position of a step in the restart order. */
function Stage(s: RestartStep): nat
{
  match s
  case ScoreReset => 0
  case PlayerDespawned(_) => 1
  case EnemyDespawned(_) => 2
  case EnemyDestroyed(_) => 2
  case SpawningStopped => 3
  case StateSetToLobby => 4
  case LobbyReset => 5
}

predicate InRestartOrder(steps: seq<RestartStep>)
{
  forall i, j :: 0 <= i < j < |steps| ==> Stage(steps[i]) <= Stage(steps[j])
}

/** The player loop: a player is despawned iff its NetworkObject exists and is spawned. */
function PlayerDespawns(players: seq<SceneObject>): (r: seq<RestartStep>)
  ensures |r| <= |players|
  ensures forall i :: 0 <= i < |r| ==> r[i].PlayerDespawned?
  ensures forall id :: PlayerDespawned(id) in r <==>
    exists j :: 0 <= j < |players| && players[j].id == id && IsSpawnedNetworkObject(players[j])
{
  if |players| == 0 then []
  else
    var rest := PlayerDespawns(players[1..]);
    assert forall j :: 0 <= j < |players| - 1 ==> players[1..][j] == players[j + 1];
    if IsSpawnedNetworkObject(players[0]) then [PlayerDespawned(players[0].id)] + rest else rest
}

/** The enemy loop: every enemy is removed once, despawned when its NetworkObject is spawned and
    destroyed otherwise. */
function EnemyRemovals(enemies: seq<SceneObject>): (r: seq<RestartStep>)
  ensures |r| == |enemies|
  ensures forall j :: 0 <= j < |r| ==> (r[j].EnemyDespawned? || r[j].EnemyDestroyed?) && r[j].enemyId == enemies[j].id
  ensures forall j :: 0 <= j < |r| ==> (r[j].EnemyDespawned? <==> IsSpawnedNetworkObject(enemies[j]))
{
  seq(|enemies|, j requires 0 <= j < |enemies| =>
    if IsSpawnedNetworkObject(enemies[j]) then EnemyDespawned(enemies[j].id) else EnemyDestroyed(enemies[j].id))
}

/** What RestartGameSequence does before it yields for a frame. */
function RestartPrelude(hasScoreManager: bool, players: seq<SceneObject>, enemies: seq<SceneObject>,
                        hasSpawner: bool): seq<RestartStep>
{
  (if hasScoreManager then [ScoreReset] else []) + PlayerDespawns(players) + EnemyRemovals(enemies) +
  (if hasSpawner then [SpawningStopped] else [])
}

/** What it does one frame later. */
function RestartEpilogue(hasLobby: bool): seq<RestartStep>
{
  [StateSetToLobby] + (if hasLobby then [LobbyReset] else [])
}

/** Every step of `s` is at stage at least lo and at most hi, and the steps are in order. */
predicate OrderedWithin(s: seq<RestartStep>, lo: nat, hi: nat)
{
  && (forall i :: 0 <= i < |s| ==> lo <= Stage(s[i]) <= hi)
  && InRestartOrder(s)
}

lemma OrderedConcat(a: seq<RestartStep>, b: seq<RestartStep>, lo: nat, mid: nat, hi: nat)
  requires lo <= mid <= hi && OrderedWithin(a, lo, mid) && OrderedWithin(b, mid, hi)
  ensures OrderedWithin(a + b, lo, hi)
{
  forall i | 0 <= i < |a + b|
    ensures lo <= Stage((a + b)[i]) <= hi
  {
    if i < |a| {
      assert (a + b)[i] == a[i];
    } else {
      assert (a + b)[i] == b[i - |a|];
    }
  }
  forall i, j | 0 <= i < j < |a + b|
    ensures Stage((a + b)[i]) <= Stage((a + b)[j])
  {
    if j < |a| {
      assert (a + b)[i] == a[i] && (a + b)[j] == a[j];
    } else if i >= |a| {
      assert (a + b)[i] == b[i - |a|] && (a + b)[j] == b[j - |a|];
    } else {
      assert (a + b)[i] == a[i] && (a + b)[j] == b[j - |a|];
    }
  }
}

/** A run of at most one step within the stage range is ordered. */
lemma ShortOrdered(s: seq<RestartStep>, lo: nat, hi: nat)
  requires |s| == 0 || (|s| == 1 && lo <= Stage(s[0]) <= hi)
  ensures OrderedWithin(s, lo, hi)
{
}

lemma {:induction false} PlayerDespawnsOrdered(players: seq<SceneObject>)
  ensures OrderedWithin(PlayerDespawns(players), 1, 1)
{
  var p := PlayerDespawns(players);
  assert forall i :: 0 <= i < |p| ==> Stage(p[i]) == 1;
}

lemma {:induction false} EnemyRemovalsOrdered(enemies: seq<SceneObject>)
  ensures OrderedWithin(EnemyRemovals(enemies), 2, 2)
{
  var e := EnemyRemovals(enemies);
  assert forall i :: 0 <= i < |e| ==> Stage(e[i]) == 2;
}

/** A full restart runs its steps in order: score reset, then player despawns, then enemy
    removals, then spawning stopped, then (a frame later) the Lobby state, then the lobby reset. */
lemma {:induction false} RestartRunsInOrder(hasScoreManager: bool, players: seq<SceneObject>,
                                            enemies: seq<SceneObject>, hasSpawner: bool, hasLobby: bool)
  ensures InRestartOrder(RestartPrelude(hasScoreManager, players, enemies, hasSpawner) + RestartEpilogue(hasLobby))
{
  var s: seq<RestartStep> := if hasScoreManager then [ScoreReset] else [];
  var t: seq<RestartStep> := if hasSpawner then [SpawningStopped] else [];
  var l: seq<RestartStep> := if hasLobby then [LobbyReset] else [];
  var p := PlayerDespawns(players);
  var e := EnemyRemovals(enemies);
  ShortOrdered(s, 0, 1);
  ShortOrdered(t, 3, 4);
  ShortOrdered([StateSetToLobby], 4, 5);
  ShortOrdered(l, 5, 5);
  PlayerDespawnsOrdered(players);
  EnemyRemovalsOrdered(enemies);
  OrderedConcat(s, p, 0, 1, 2);
  OrderedConcat(s + p, e, 0, 2, 3);
  OrderedConcat(s + p + e, t, 0, 3, 4);
  OrderedConcat([StateSetToLobby], l, 4, 5, 5);
  OrderedConcat(s + p + e + t, [StateSetToLobby] + l, 0, 4, 5);
}

/** Players counted alive by CheckGameOverCondition: those with a PlayerHealth that is alive. */
function AliveCount(players: seq<HealthView>): (n: nat)
  ensures n <= |players|
  ensures n == 0 <==> forall j :: 0 <= j < |players| ==> players[j] != HealthComponent(false)
{
  if |players| == 0 then 0
  else
    var rest := AliveCount(players[1..]);
    assert rest == 0 <==> forall j :: 1 <= j < |players| ==> players[j] != HealthComponent(false) by {
      assert forall j :: 1 <= j < |players| ==> players[j] == players[1..][j - 1];
    }
    (if players[0] == HealthComponent(false) then 1 else 0) + rest
}

/** The alive counter of CheckGameOverCondition. */
method CountAlivePlayers(players: seq<HealthView>) returns (alive: nat)
  ensures alive == AliveCount(players)
{
  alive := 0;
  var i := 0;
  while i < |players|
    invariant 0 <= i <= |players|
    invariant alive == AliveCount(players[..i])
  {
    assert players[..i + 1] == players[..i] + [players[i]];
    AliveCountSnoc(players[..i], players[i]);
    if players[i] == HealthComponent(false) {
      alive := alive + 1;
    }
    i := i + 1;
  }
  assert players[..i] == players;
}

lemma {:induction false} AliveCountSnoc(s: seq<HealthView>, h: HealthView)
  ensures AliveCount(s + [h]) == AliveCount(s) + (if h == HealthComponent(false) then 1 else 0)
  decreases |s|
{
  if |s| == 0 {
    assert (s + [h])[1..] == [];
  } else {
    assert (s + [h])[1..] == s[1..] + [h];
    AliveCountSnoc(s[1..], h);
  }
}

/** The defeat condition: no player objects, or none of them alive. */
predicate PartyWiped(players: seq<HealthView>)
{
  |players| == 0 || AliveCount(players) == 0
}

/** The player loop of RestartGameSequence. */
method DespawnPlayers(players: seq<SceneObject>) returns (steps: seq<RestartStep>)
  ensures steps == PlayerDespawns(players)
{
  steps := [];
  var i := |players|;
  while i > 0
    invariant 0 <= i <= |players|
    invariant steps == PlayerDespawns(players[i..])
    decreases i
  {
    i := i - 1;
    assert players[i..][1..] == players[i + 1..];
    if IsSpawnedNetworkObject(players[i]) {
      steps := [PlayerDespawned(players[i].id)] + steps;
    }
  }
  assert players[0..] == players;
}

/** The enemy loop of RestartGameSequence. */
method RemoveEnemies(enemies: seq<SceneObject>) returns (steps: seq<RestartStep>)
  ensures steps == EnemyRemovals(enemies)
{
  steps := [];
  var j := 0;
  while j < |enemies|
    invariant 0 <= j <= |enemies|
    invariant steps == EnemyRemovals(enemies[..j])
  {
    var e := enemies[j];
    steps := steps + [if IsSpawnedNetworkObject(e) then EnemyDespawned(e.id) else EnemyDestroyed(e.id)];
    j := j + 1;
  }
  assert enemies[..j] == enemies;
}

class GameStateManager {
  const lobbyRootPresent: bool
  const gameRootPresent: bool
  /** The serialized EnemySpawner reference, ScoreManager.Instance and LobbyManager.Instance. */
  const spawner: EnemySpawner?
  const scoreManager: ScoreManager?
  const lobby: LobbyManager?

  /** SyncVar<GameState>(Lobby). */
  var currentState: GameState
  var lobbyRootActive: bool
  var gameRootActive: bool
  /** The state-change notifications (OnChange, hence OnGameStateChanged) in order. */
  var changes: seq<GameState>
  /** RestartGameSequence coroutines waiting for their next frame. */
  var pendingRestarts: nat
  var restartLog: seq<RestartStep>

  ghost predicate Valid()
    reads this, spawner, scoreManager
  {
    && (spawner != null ==> spawner.Valid())
    && (scoreManager != null ==> scoreManager.Valid())
  }

  /** The state-gated roots show the lobby exactly in Lobby and the game world otherwise. */
  predicate RootsShow(s: GameState)
    reads this
  {
    && (lobbyRootPresent ==> lobbyRootActive == (s == Lobby))
    && (gameRootPresent ==> gameRootActive == (s != Lobby))
  }

  constructor (lobbyRootPresent: bool, gameRootPresent: bool, spawner: EnemySpawner?,
               scoreManager: ScoreManager?, lobby: LobbyManager?)
    requires spawner != null ==> spawner.Valid()
    requires scoreManager != null ==> scoreManager.Valid()
    ensures Valid() && currentState == Lobby && changes == [] && pendingRestarts == 0 && restartLog == []
    ensures this.lobbyRootPresent == lobbyRootPresent && this.gameRootPresent == gameRootPresent
    ensures this.spawner == spawner && this.scoreManager == scoreManager && this.lobby == lobby
  {
    this.lobbyRootPresent, this.gameRootPresent := lobbyRootPresent, gameRootPresent;
    this.spawner, this.scoreManager, this.lobby := spawner, scoreManager, lobby;
    currentState, lobbyRootActive, gameRootActive := Lobby, false, false;
    changes, pendingRestarts, restartLog := [], 0, [];
  }

  function GetCurrentState(): GameState reads this { currentState }
  function IsLobby(): bool reads this { currentState == Lobby }
  function IsPlaying(): bool reads this { currentState == Playing }
  function IsGameOver(): bool reads this { currentState == GameOver }
  function IsVictory(): bool reads this { currentState == Victory }

  /** ApplyStateVisibility: each root that exists is switched to match `s`. */
  method ApplyStateVisibility(s: GameState)
    modifies this
    ensures RootsShow(s)
    ensures !lobbyRootPresent ==> lobbyRootActive == old(lobbyRootActive)
    ensures !gameRootPresent ==> gameRootActive == old(gameRootActive)
    ensures currentState == old(currentState) && changes == old(changes)
    ensures pendingRestarts == old(pendingRestarts) && restartLog == old(restartLog)
  {
    var isLobby := s == Lobby;
    if lobbyRootPresent {
      lobbyRootActive := isLobby;
    }
    if gameRootPresent {
      gameRootActive := !isLobby;
    }
  }

  /** Assigning the SyncVar: OnChange (HandleStateChange) runs only when the value changes; it
      switches the roots and notifies the spawner. */
  method SetState(s: GameState)
    requires Valid()
    modifies this, spawner
    ensures Valid() && currentState == s
    ensures pendingRestarts == old(pendingRestarts) && restartLog == old(restartLog)
    ensures s == old(currentState) ==>
      changes == old(changes) && lobbyRootActive == old(lobbyRootActive) &&
      gameRootActive == old(gameRootActive) && (spawner != null ==> unchanged(spawner))
    ensures s != old(currentState) ==>
      changes == old(changes) + [s] && RootsShow(s) && (spawner != null ==> ReactedTo(spawner, s))
  {
    if s == currentState {
      return;
    }
    currentState := s;
    changes := changes + [s];
    ApplyStateVisibility(s);
    if spawner != null {
      spawner.OnGameStateChanged(s);
    }
  }

  /** OnStartServer: the state is set to Lobby and the roots are switched to Lobby either way. */
  method OnStartServer()
    requires Valid()
    modifies this, spawner
    ensures Valid() && currentState == Lobby && RootsShow(Lobby)
    ensures changes == old(changes) + (if old(currentState) != Lobby then [Lobby] else [])
    ensures old(currentState) != Lobby && spawner != null ==> ReactedTo(spawner, Lobby)
  {
    SetState(Lobby);
    ApplyStateVisibility(Lobby);
  }

  /** StartGameFromLobby: only from Lobby, the game moves to Playing (and the waves restart). */
  method StartGameFromLobby()
    requires Valid()
    modifies this, spawner
    ensures Valid() && StartedFromLobby(this)
  {
    if currentState != Lobby {
      return;
    }
    SetState(Playing);
  }

  /** Update while Playing: the victory check, then the defeat check, each of which assigns the
      state. Defeat is checked after victory in the same frame, so when both hold the state ends in
      GameOver, after a Victory notification. Outside Playing nothing happens. */
  method Update(enemiesRemaining: nat, players: seq<HealthView>)
    requires Valid()
    modifies this, spawner
    ensures Valid() && (spawner != null ==> unchanged(spawner))
    ensures old(currentState) != Playing ==> currentState == old(currentState) && changes == old(changes)
    ensures old(currentState) == Playing ==>
      var won := spawner != null && spawner.currentWave >= 3 && !spawner.waveActive && enemiesRemaining == 0;
      && currentState == (if PartyWiped(players) then GameOver else if won then Victory else Playing)
      && changes == old(changes) + (if won then [Victory] else []) + (if PartyWiped(players) then [GameOver] else [])
    ensures pendingRestarts == old(pendingRestarts) && restartLog == old(restartLog)
  {
    if currentState == Playing {
      CheckVictoryCondition(enemiesRemaining);
      CheckGameOverCondition(players);
    }
  }

  method CheckVictoryCondition(enemiesRemaining: nat)
    requires Valid() && currentState == Playing
    modifies this, spawner
    ensures Valid() && (spawner != null ==> unchanged(spawner))
    ensures var won := spawner != null && spawner.currentWave >= 3 && !spawner.waveActive && enemiesRemaining == 0;
      currentState == (if won then Victory else Playing) && changes == old(changes) + (if won then [Victory] else [])
    ensures pendingRestarts == old(pendingRestarts) && restartLog == old(restartLog)
  {
    if spawner == null {
      return;
    }
    if spawner.GetCurrentWave() >= 3 && !spawner.IsWaveActive() {
      if enemiesRemaining == 0 {
        SetState(Victory);
      }
    }
  }

  method CheckGameOverCondition(players: seq<HealthView>)
    requires Valid() && currentState != Lobby
    modifies this, spawner
    ensures Valid() && (spawner != null ==> unchanged(spawner))
    ensures PartyWiped(players) ==>
      currentState == GameOver && changes == old(changes) + (if old(currentState) != GameOver then [GameOver] else [])
    ensures !PartyWiped(players) ==> currentState == old(currentState) && changes == old(changes)
    ensures pendingRestarts == old(pendingRestarts) && restartLog == old(restartLog)
  {
    if |players| == 0 {
      SetState(GameOver);
      return;
    }
    var alivePlayers := CountAlivePlayers(players);
    if alivePlayers == 0 {
      SetState(GameOver);
    }
  }

  /** RequestRestartServerRpc: accepted from anyone in any state. The RestartGameSequence coroutine
      runs at once up to its one-frame yield: score reset, players despawned, enemies removed,
      spawning stopped. */
  method RequestRestart(players: seq<SceneObject>, enemies: seq<SceneObject>)
    requires Valid()
    modifies this, scoreManager, spawner
    ensures Valid() && currentState == old(currentState) && changes == old(changes)
    ensures pendingRestarts == old(pendingRestarts) + 1
    ensures restartLog == old(restartLog) + RestartPrelude(scoreManager != null, players, enemies, spawner != null)
    ensures scoreManager != null ==>
      scoreManager.teamScore == 0 && scoreManager.totalKills == 0 && scoreManager.playerScores == map[]
    ensures spawner != null ==> !spawner.waveActive && spawner.phase == NotRunning
    ensures spawner != null ==>
      && spawner.currentWave == old(spawner.currentWave) && spawner.spawned == old(spawner.spawned)
      && spawner.clearedWaves == old(spawner.clearedWaves) && spawner.spawnAttempts == old(spawner.spawnAttempts)
  {
    var reset: seq<RestartStep> := [];
    if scoreManager != null {
      scoreManager.ResetScore();
      reset := [ScoreReset];
    }

    var despawned := DespawnPlayers(players);
    var removed := RemoveEnemies(enemies);

    var stopped: seq<RestartStep> := [];
    if spawner != null {
      spawner.StopSpawning();
      stopped := [SpawningStopped];
    }
    assert reset + despawned + removed + stopped ==
      RestartPrelude(scoreManager != null, players, enemies, spawner != null);
    restartLog := restartLog + (reset + despawned + removed + stopped);
    pendingRestarts := pendingRestarts + 1;
  }

  /** The frame after a restart request: the state goes back to Lobby, then the lobby is reset. */
  method ResumeRestart()
    requires Valid() && pendingRestarts > 0
    requires lobby != null ==> lobby.Valid()
    modifies this, spawner, lobby
    ensures Valid() && currentState == Lobby && pendingRestarts == old(pendingRestarts) - 1
    ensures restartLog == old(restartLog) + RestartEpilogue(lobby != null)
    ensures changes == old(changes) + (if old(currentState) != Lobby then [Lobby] else [])
    ensures old(currentState) != Lobby && spawner != null ==> ReactedTo(spawner, Lobby)
    ensures lobby != null ==>
      lobby.Valid() && AllUnreadied(old(lobby.playerDataDict), lobby.playerDataDict) &&
      !lobby.countdownActive && lobby.countdownCoroutine.None? && lobby.running == old(lobby.running)
  {
    SetState(Lobby);
    restartLog := restartLog + [StateSetToLobby];
    if lobby != null {
      lobby.ResetLobby();
      restartLog := restartLog + [LobbyReset];
    }
    pendingRestarts := pendingRestarts - 1;
  }
}

/** StartGameFromLobby's effect: Lobby becomes Playing with one notification and the waves
    restart; any other state is left alone. */
twostate predicate StartedFromLobby(g: GameStateManager)
  reads g, g.spawner
{
  && (old(g.currentState) == Lobby ==>
        g.currentState == Playing && g.changes == old(g.changes) + [Playing] &&
        (g.spawner != null ==> ReactedTo(g.spawner, Playing)))
  && (old(g.currentState) != Lobby ==>
        g.currentState == old(g.currentState) && g.changes == old(g.changes) &&
        (g.spawner != null ==> unchanged(g.spawner)))
  && g.pendingRestarts == old(g.pendingRestarts) && g.restartLog == old(g.restartLog)
}
