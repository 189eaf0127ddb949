// ScoreManager: the server-side score ledger (team score, kill count, per-player scores).

/** A reference to a player GameObject as the score code sees it: null, or an object that may or
    may not carry a NetworkObject (whose ObjectId keys the per-player scores). */
datatype PlayerRef = NoPlayer | PlayerObject(networkObjectId: Option<int>)

/** The per-player key a reference credits, if any. */
function ScoreKey(p: PlayerRef): (k: Option<int>)
  ensures k.Some? <==> p.PlayerObject? && p.networkObjectId.Some?
{
  if p.PlayerObject? then p.networkObjectId else None
}

class ScoreManager {
  const killReward: int
  const waveClearBonus: int

  var teamScore: int
  var totalKills: int
  /** SyncDictionary<int, int>: NetworkObject id -> individual score. */
  var playerScores: map<int, int>

  ghost predicate Valid()
    reads this
  {
    && killReward == 10 && waveClearBonus == 50
    // an individual score is only ever created by a kill, so it is a positive multiple of the reward
    && forall id :: id in playerScores ==> playerScores[id] > 0 && playerScores[id] % killReward == 0
  }

  /** Field initialisers: SyncVar<int>(0) twice and an empty dictionary. */
  constructor ()
    ensures Valid()
    ensures teamScore == 0 && totalKills == 0 && playerScores == map[]
  {
    killReward, waveClearBonus := 10, 50;
    teamScore, totalKills, playerScores := 0, 0, map[];
  }

  /** OnStartServer: team score and kills start at zero; per-player scores are left as they are. */
  method OnStartServer()
    requires Valid()
    modifies this
    ensures Valid()
    ensures teamScore == 0 && totalKills == 0 && playerScores == old(playerScores)
  {
    teamScore := 0;
    totalKills := 0;
  }

  /** AddKillScore: every kill credits the team; only a killer with a NetworkObject gets
      individual credit, its entry created at 0 first if absent. */
  method AddKillScore(killer: PlayerRef)
    requires Valid()
    modifies this
    ensures Valid()
    ensures teamScore == old(teamScore) + killReward
    ensures totalKills == old(totalKills) + 1
    ensures ScoreKey(killer).None? ==> playerScores == old(playerScores)
    ensures ScoreKey(killer).Some? ==>
      playerScores == old(playerScores)[ScoreKey(killer).value := old(GetPlayerScore(killer)) + killReward]
  {
    teamScore := teamScore + killReward;
    totalKills := totalKills + 1;
    if killer.PlayerObject? {
      if killer.networkObjectId.Some? {
        var playerId := killer.networkObjectId.value;
        if playerId !in playerScores {
          playerScores := playerScores[playerId := 0];
        }
        playerScores := playerScores[playerId := playerScores[playerId] + killReward];
      }
    }
  }

  /** AddWaveBonus: the wave number is ignored; only the team score moves. */
  method AddWaveBonus(waveNumber: int)
    requires Valid()
    modifies this
    ensures Valid()
    ensures teamScore == old(teamScore) + waveClearBonus
    ensures totalKills == old(totalKills) && playerScores == old(playerScores)
  {
    teamScore := teamScore + waveClearBonus;
  }

  /** AddScoreServerRpc: adds any amount (possibly negative) to the team score. */
  method AddScore(points: int)
    requires Valid()
    modifies this
    ensures Valid()
    ensures teamScore == old(teamScore) + points
    ensures totalKills == old(totalKills) && playerScores == old(playerScores)
  {
    teamScore := teamScore + points;
  }

  method ResetScore()
    requires Valid()
    modifies this
    ensures Valid()
    ensures teamScore == 0 && totalKills == 0 && playerScores == map[]
  {
    teamScore := 0;
    totalKills := 0;
    playerScores := map[];
  }

  /** GetPlayerScore: the ledger's score for `player`. */
  function GetPlayerScore(player: PlayerRef): (r: int)
    reads this
    ensures r == ScoreOf(playerScores, player)
  {
    match ScoreKey(player)
    case None => 0
    case Some(id) => if id in playerScores then playerScores[id] else 0
  }
}

/** The individual score a ledger holds for `player`: 0 for a null player, a player without a
    NetworkObject or an id never credited, and otherwise the stored value. */
function ScoreOf(scores: map<int, int>, player: PlayerRef): (r: int)
  ensures ScoreKey(player).None? ==> r == 0
  ensures ScoreKey(player).Some? && ScoreKey(player).value !in scores ==> r == 0
  ensures ScoreKey(player).Some? && ScoreKey(player).value in scores ==> r == scores[ScoreKey(player).value]
{
  if ScoreKey(player).Some? && ScoreKey(player).value in scores then scores[ScoreKey(player).value] else 0
}
