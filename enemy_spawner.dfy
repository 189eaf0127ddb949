// EnemySpawner: the wave scheduler. After a 2 s delay it runs waves 1..3; each wave spawns its
// fixed number of enemies with randomised gaps, then polls every 0.5 s until no enemy is left,
// announces the cleared wave, and waits 3 s before the next wave (but not after the last).

/** The two enemy archetypes. */
datatype EnemyKind = Chaser | Shooter

/** One enemy put into play during wave `wave`. */
datatype SpawnRecord = SpawnRecord(wave: int, kind: EnemyKind)

/** A candidate spawn point of the retry loop: its angle on the spawn circle (Random.Range, given)
    and whether IsTooCloseToPlayers holds for it. */
datatype SpawnCandidate = SpawnCandidate(angleDeg: real, tooClose: bool)

/** Where the WaveSequence coroutine is suspended, if one is running.
    - InitialDelay: the 2 s wait before wave 1.
    - SpawnGap(wave, issued): inside SpawnWave(wave), after `issued` SpawnRandomEnemy calls.
    - Draining(wave): the 0.5 s polling loop after wave's spawn loop has finished.
    - InterWave(wave): the 3 s wait after wave was cleared. */
datatype WavePhase =
  | NotRunning
  | InitialDelay
  | SpawnGap(wave: int, issued: nat)
  | Draining(wave: int)
  | InterWave(wave: int)

const MaxSpawnAttempts: nat := 10

/** The numbers 1..n in order. */
function WavesUpTo(n: nat): (r: seq<int>)
  ensures |r| == n
  ensures forall i :: 0 <= i < n ==> r[i] == i + 1
{
  if n == 0 then [] else WavesUpTo(n - 1) + [n]
}

/** The archetype for a Random.value `roll`: a chaser below chaserSpawnWeight, otherwise a shooter. */
function ArchetypeFor(roll: real, chaserSpawnWeight: real): (k: EnemyKind)
  ensures k == Chaser <==> roll < chaserSpawnWeight
{
  if roll < chaserSpawnWeight then Chaser else Shooter
}

/** GetRandomSpawnPoint's do-while: draw a candidate, stop at the first one not too close to a
    player or after the tenth draw, whatever it is. `candidates` are the draws in order. Returns
    the number of draws and the index of the point used. */
method GetRandomSpawnPoint(candidates: seq<SpawnCandidate>) returns (attempts: nat, chosen: nat)
  requires |candidates| >= MaxSpawnAttempts
  ensures 1 <= attempts <= MaxSpawnAttempts && chosen == attempts - 1
  ensures forall j :: 0 <= j < chosen ==> candidates[j].tooClose
  ensures candidates[chosen].tooClose ==> attempts == MaxSpawnAttempts
{
  attempts := 0;
  chosen := 0;
  while true
    invariant attempts < MaxSpawnAttempts
    invariant forall j :: 0 <= j < attempts ==> candidates[j].tooClose
    decreases MaxSpawnAttempts - attempts
  {
    chosen := attempts;
    attempts := attempts + 1;
    if !candidates[chosen].tooClose || attempts == MaxSpawnAttempts {
      break;
    }
  }
}

class EnemySpawner {
  const maxWaves: int
  const waveEnemyCounts: seq<int>
  const chaserSpawnWeight: real
  /** chaserPrefab and shooterPrefab are assigned in the inspector and may be missing. */
  const hasChaserPrefab: bool
  const hasShooterPrefab: bool
  const enemyBulletPool: BulletPool?

  /** SyncVar<int>(1). */
  var currentWave: int
  var waveActive: bool
  var phase: WavePhase
  /** Every enemy spawned, in order. */
  var spawned: seq<SpawnRecord>
  /** SpawnRandomEnemy calls, with or without a prefab. */
  var spawnAttempts: nat
  /** The OnWaveCleared announcements of the current wave sequence, in order. */
  var clearedWaves: seq<int>

  /** The serialized settings. */
  ghost predicate Config()
    reads this
  {
    maxWaves == 3 && waveEnemyCounts == [60, 67, 107] && chaserSpawnWeight == 0.7
  }

  ghost predicate Valid()
    reads this
  {
    && Config()
    && 1 <= currentWave <= maxWaves
    && (waveActive <==> phase.SpawnGap?)
    && PhaseValid()
  }

  /** Where the sequence is, tied to the wave counter and the announcements so far: a wave is
      announced only after its spawn loop, and waves are announced 1, 2, 3 in order. */
  ghost predicate PhaseValid()
    reads this
    requires maxWaves == 3 && |waveEnemyCounts| == 3
  {
    match phase
    case NotRunning => |clearedWaves| <= maxWaves && clearedWaves == WavesUpTo(|clearedWaves|)
    case InitialDelay => clearedWaves == [] && currentWave == 1
    case SpawnGap(w, k) =>
      1 <= w <= maxWaves && w == currentWave && 1 <= k <= waveEnemyCounts[w - 1] && clearedWaves == WavesUpTo(w - 1)
    case Draining(w) => 1 <= w <= maxWaves && w == currentWave && clearedWaves == WavesUpTo(w - 1)
    case InterWave(w) => 1 <= w < maxWaves && w == currentWave && w < maxWaves && clearedWaves == WavesUpTo(w)
  }

  constructor (hasChaserPrefab: bool, hasShooterPrefab: bool, enemyBulletPool: BulletPool?)
    ensures Valid()
    ensures this.hasChaserPrefab == hasChaserPrefab && this.hasShooterPrefab == hasShooterPrefab
    ensures this.enemyBulletPool == enemyBulletPool
    ensures currentWave == 1 && !waveActive && phase == NotRunning && spawned == [] && clearedWaves == []
  {
    maxWaves, waveEnemyCounts, chaserSpawnWeight := 3, [60, 67, 107], 0.7;
    this.hasChaserPrefab, this.hasShooterPrefab, this.enemyBulletPool := hasChaserPrefab, hasShooterPrefab, enemyBulletPool;
    currentWave, waveActive, phase := 1, false, NotRunning;
    spawned, spawnAttempts, clearedWaves := [], 0, [];
  }

  /** What one SpawnRandomEnemy call in `wave` with Random.value `roll` adds to the spawn record:
      the archetype ArchetypeFor picks, or nothing when that archetype's prefab is missing. */
  function SpawnFor(wave: int, roll: real): (r: seq<SpawnRecord>)
    ensures |r| <= 1
    ensures |r| == 1 ==> r[0] == SpawnRecord(wave, ArchetypeFor(roll, chaserSpawnWeight))
  {
    var kind := ArchetypeFor(roll, chaserSpawnWeight);
    if (kind == Chaser && hasChaserPrefab) || (kind == Shooter && hasShooterPrefab)
    then [SpawnRecord(wave, kind)] else []
  }

  function GetCurrentWave(): int reads this { currentWave }
  function GetMaxWaves(): int reads this { maxWaves }
  function IsWaveActive(): bool reads this { waveActive }
  function GetEnemyBulletPool(): BulletPool? reads this { enemyBulletPool }

  /** SpawnRandomEnemy: pick a point (at most ten draws) and an archetype from `roll`; a missing
      prefab skips this spawn without retrying. */
  method SpawnRandomEnemy(roll: real, candidates: seq<SpawnCandidate>)
    requires Config() && |candidates| >= MaxSpawnAttempts
    modifies this
    ensures Config() && spawnAttempts == old(spawnAttempts) + 1
    ensures spawned == old(spawned) + SpawnFor(currentWave, roll)
    ensures currentWave == old(currentWave) && waveActive == old(waveActive) && phase == old(phase)
    ensures clearedWaves == old(clearedWaves)
  {
    var attempts, chosen := GetRandomSpawnPoint(candidates);
    spawnAttempts := spawnAttempts + 1;
    var kind := if roll < chaserSpawnWeight then Chaser else Shooter;
    var hasPrefab := if kind == Chaser then hasChaserPrefab else hasShooterPrefab;
    if !hasPrefab {
      return;
    }
    spawned := spawned + [SpawnRecord(currentWave, kind)];
  }

  /** Entering SpawnWave(wave): the wave becomes active and its first enemy is spawned. */
  method BeginWave(wave: int, roll: real, candidates: seq<SpawnCandidate>)
    requires Valid() && 1 <= wave <= maxWaves && |candidates| >= MaxSpawnAttempts
    requires clearedWaves == WavesUpTo(wave - 1)
    modifies this
    ensures Valid() && currentWave == wave && waveActive && phase == SpawnGap(wave, 1)
    ensures spawned == old(spawned) + SpawnFor(wave, roll)
    ensures spawnAttempts == old(spawnAttempts) + 1 && clearedWaves == old(clearedWaves)
  {
    currentWave := wave;
    phase := SpawnGap(wave, 0);
    waveActive := true;
    SpawnRandomEnemy(roll, candidates);
    phase := SpawnGap(wave, 1);
  }

  /** The 2 s initial delay elapsed: wave 1 begins. */
  method InitialDelayElapsed(roll: real, candidates: seq<SpawnCandidate>)
    requires Valid() && phase == InitialDelay && |candidates| >= MaxSpawnAttempts
    modifies this
    ensures Valid() && currentWave == 1 && waveActive && phase == SpawnGap(1, 1)
    ensures clearedWaves == old(clearedWaves) && spawnAttempts == old(spawnAttempts) + 1
    ensures spawned == old(spawned) + SpawnFor(1, roll)
  {
    BeginWave(1, roll, candidates);
  }

  /** A spawn gap elapsed: spawn the next enemy, or, once the wave's count is issued, end the
      spawn loop (waveActive false) and start polling. */
  method SpawnGapElapsed(roll: real, candidates: seq<SpawnCandidate>)
    requires Valid() && phase.SpawnGap? && |candidates| >= MaxSpawnAttempts
    modifies this
    ensures Valid() && currentWave == old(currentWave) && clearedWaves == old(clearedWaves)
    ensures old(phase.issued) < waveEnemyCounts[currentWave - 1] ==>
      && phase == SpawnGap(currentWave, old(phase.issued) + 1) && waveActive
      && spawnAttempts == old(spawnAttempts) + 1 && spawned == old(spawned) + SpawnFor(currentWave, roll)
    ensures old(phase.issued) == waveEnemyCounts[currentWave - 1] ==>
      phase == Draining(currentWave) && !waveActive && spawned == old(spawned) && spawnAttempts == old(spawnAttempts)
  {
    var w, k := phase.wave, phase.issued;
    if k < waveEnemyCounts[w - 1] {
      SpawnRandomEnemy(roll, candidates);
      phase := SpawnGap(w, k + 1);
    } else {
      waveActive := false;
      phase := Draining(w);
    }
  }

  /** A 0.5 s poll while draining, seeing `enemiesRemaining` enemies: nothing happens until the
      count is zero; then the wave is announced and the sequence waits 3 s, or ends after the
      last wave. */
  method DrainPoll(enemiesRemaining: nat)
    requires Valid() && phase.Draining?
    modifies this
    ensures Valid() && currentWave == old(currentWave) && !waveActive && spawned == old(spawned)
    ensures enemiesRemaining > 0 ==> phase == old(phase) && clearedWaves == old(clearedWaves)
    ensures enemiesRemaining == 0 ==> clearedWaves == old(clearedWaves) + [currentWave]
    ensures enemiesRemaining == 0 && currentWave < maxWaves ==> phase == InterWave(currentWave)
    ensures enemiesRemaining == 0 && currentWave == maxWaves ==> phase == NotRunning
  {
    if enemiesRemaining != 0 {
      return;
    }
    var w := phase.wave;
    clearedWaves := clearedWaves + [w];
    if w < maxWaves {
      phase := InterWave(w);
    } else {
      phase := NotRunning;
    }
  }

  /** The 3 s pause after a cleared wave elapsed: the next wave begins. */
  method InterWaveElapsed(roll: real, candidates: seq<SpawnCandidate>)
    requires Valid() && phase.InterWave? && |candidates| >= MaxSpawnAttempts
    modifies this
    ensures Valid() && currentWave == old(currentWave) + 1 && waveActive
    ensures phase == SpawnGap(currentWave, 1) && clearedWaves == old(clearedWaves)
    ensures spawnAttempts == old(spawnAttempts) + 1 && spawned == old(spawned) + SpawnFor(currentWave, roll)
  {
    BeginWave(phase.wave + 1, roll, candidates);
  }

  /** StopSpawning: StopAllCoroutines ends the wave sequence; the wave counter is kept. */
  method StopSpawning()
    requires Valid()
    modifies this
    ensures Valid() && !waveActive && phase == NotRunning
    ensures currentWave == old(currentWave) && spawned == old(spawned) && clearedWaves == old(clearedWaves)
    ensures spawnAttempts == old(spawnAttempts)
  {
    phase := NotRunning;
    waveActive := false;
  }

  /** RestartWaves: back to wave 1, inactive, and a new sequence in its initial delay. */
  method RestartWaves()
    requires Valid()
    modifies this
    ensures Valid() && currentWave == 1 && !waveActive && phase == InitialDelay && clearedWaves == []
    ensures spawned == old(spawned)
  {
    currentWave := 1;
    waveActive := false;
    phase := InitialDelay;
    clearedWaves := [];
  }

  /** OnGameStateChanged: Playing restarts the waves, Lobby stops spawning, the end states change
      nothing. */
  method OnGameStateChanged(newState: GameState)
    requires Valid()
    modifies this
    ensures Valid() && ReactedTo(this, newState)
  {
    if newState == Playing {
      RestartWaves();
    } else if newState == Lobby {
      StopSpawning();
    }
  }
}

/** The spawner's reaction to a game-state notification, relative to its state before. */
twostate predicate ReactedTo(sp: EnemySpawner, s: GameState)
  reads sp
{
  && (s == Playing ==>
        sp.currentWave == 1 && !sp.waveActive && sp.phase == InitialDelay && sp.clearedWaves == [] &&
        sp.spawned == old(sp.spawned))
  && (s == Lobby ==>
        !sp.waveActive && sp.phase == NotRunning && sp.currentWave == old(sp.currentWave) &&
        sp.spawned == old(sp.spawned) && sp.clearedWaves == old(sp.clearedWaves))
  && (s == GameOver || s == Victory ==> unchanged(sp))
}
