// HUDManager: the in-game HUD. It maps game-state notifications to the end-of-game panels,
// submits the finished game's scores to the leaderboard, and keeps the two player slots' texts.

/** A player object as the HUD sees it: the reference used for the score lookup, the name on its
    PlayerController if it has one, and whether it has a PlayerHealth. */
datatype HudPlayer = HudPlayer(obj: PlayerRef, controllerName: Option<string>, hasHealth: bool)

/** The name a player is submitted under: its PlayerController's name, or "Player" without one. */
function SubmittedName(p: HudPlayer): (name: string)
  ensures p.controllerName.Some? ==> name == p.controllerName.value
  ensures p.controllerName.None? ==> name == "Player"
{
  if p.controllerName.Some? then p.controllerName.value else "Player"
}

/** The score a player is submitted with: its own score when positive, else the team score. */
function SubmittedScore(p: HudPlayer, teamScore: int, scores: map<int, int>): (score: int)
  ensures ScoreOf(scores, p.obj) > 0 ==> score == ScoreOf(scores, p.obj)
  ensures ScoreOf(scores, p.obj) <= 0 ==> score == teamScore
{
  var individual := ScoreOf(scores, p.obj);
  if individual > 0 then individual else teamScore
}

/** The (name, score) pairs SubmitHighscores hands to the leaderboard: one "Team" entry when no
    player object is left, otherwise one entry per player in order. */
function HighscoreSubmissions(players: seq<HudPlayer>, teamScore: int, scores: map<int, int>): (r: seq<(string, int)>)
  ensures |players| == 0 ==> r == [("Team", teamScore)]
  ensures |players| > 0 ==> |r| == |players|
  ensures |players| > 0 ==> forall i :: 0 <= i < |players| ==>
    r[i].0 == SubmittedName(players[i]) && r[i].1 == SubmittedScore(players[i], teamScore, scores)
{
  if |players| == 0 then [("Team", teamScore)]
  else seq(|players|, i requires 0 <= i < |players| =>
         (SubmittedName(players[i]), SubmittedScore(players[i], teamScore, scores)))
}

/** A credited player is submitted with its own score, so no player's individual credit is lost,
    and an uncredited player still gets the team's score. */
lemma {:induction false} SubmissionsKeepCredit(players: seq<HudPlayer>, teamScore: int, scores: map<int, int>, i: int)
  requires 0 <= i < |players|
  ensures var r := HighscoreSubmissions(players, teamScore, scores);
    && (ScoreOf(scores, players[i].obj) > 0 ==> r[i].1 == ScoreOf(scores, players[i].obj))
    && (ScoreOf(scores, players[i].obj) <= 0 ==> r[i].1 == teamScore)
    && (teamScore >= 0 ==> r[i].1 >= 0)
{
  var r := HighscoreSubmissions(players, teamScore, scores);
  assert r[i].1 == SubmittedScore(players[i], teamScore, scores);
}

/** The panels after a state notification, given which panels exist and whether they were
    showing: Lobby and Playing hide both, GameOver shows the game-over panel, Victory the victory
    panel; an end state leaves the other panel as it was. */
function PanelsAfter(s: GameState, hasGameOverPanel: bool, hasVictoryPanel: bool,
                     gameOverShown: bool, victoryShown: bool): (r: (bool, bool))
  ensures !hasGameOverPanel ==> r.0 == gameOverShown
  ensures !hasVictoryPanel ==> r.1 == victoryShown
  ensures (s == Lobby || s == Playing) ==> (hasGameOverPanel ==> !r.0) && (hasVictoryPanel ==> !r.1)
  ensures s == GameOver ==> (hasGameOverPanel ==> r.0) && r.1 == victoryShown
  ensures s == Victory ==> (hasVictoryPanel ==> r.1) && r.0 == gameOverShown
{
  match s
  case Lobby | Playing =>
    (if hasGameOverPanel then false else gameOverShown, if hasVictoryPanel then false else victoryShown)
  case GameOver => (if hasGameOverPanel then true else gameOverShown, victoryShown)
  case Victory => (gameOverShown, if hasVictoryPanel then true else victoryShown)
}

/** An end screen is shown, and the scores submitted, only when the matching panel exists. */
predicate ShowsEndScreen(s: GameState, hasGameOverPanel: bool, hasVictoryPanel: bool)
{
  (s == GameOver && hasGameOverPanel) || (s == Victory && hasVictoryPanel)
}

/** One player column of the HUD: which widgets are assigned and what the texts say. */
class PlayerSlot {
  const hasHpBar: bool
  const hasNameText: bool
  const hasScoreText: bool
  var nameText: string
  var scoreText: string

  constructor (hasHpBar: bool, hasNameText: bool, hasScoreText: bool)
    ensures this.hasHpBar == hasHpBar && this.hasNameText == hasNameText && this.hasScoreText == hasScoreText
    ensures nameText == "" && scoreText == ""
  {
    this.hasHpBar, this.hasNameText, this.hasScoreText := hasHpBar, hasNameText, hasScoreText;
    nameText, scoreText := "", "";
  }

  /** UpdateSinglePlayerHP: nothing without an HP bar; otherwise the score text shows the player's
      own score (when there is a text and a ScoreManager) and the name text the controller's name
      (when the player has a PlayerHealth, a controller and there is a text). */
  twostate predicate ShowedPlayer(p: HudPlayer, new scores: Option<map<int, int>>)
    reads this
  {
    && (!hasHpBar ==> nameText == old(nameText) && scoreText == old(scoreText))
    && (hasHpBar && hasScoreText && scores.Some? ==>
          scoreText == "Score: " + IntToString(ScoreOf(scores.value, p.obj)))
    && (!(hasHpBar && hasScoreText && scores.Some?) ==> scoreText == old(scoreText))
    && (hasHpBar && p.hasHealth && hasNameText && p.controllerName.Some? ==>
          nameText == p.controllerName.value)
    && (!(hasHpBar && p.hasHealth && hasNameText && p.controllerName.Some?) ==> nameText == old(nameText))
  }

  method ShowPlayer(p: HudPlayer, scores: Option<map<int, int>>)
    modifies this
    ensures ShowedPlayer(p, scores)
  {
    if !hasHpBar {
      return;
    }
    if hasScoreText && scores.Some? {
      scoreText := "Score: " + IntToString(ScoreOf(scores.value, p.obj));
    }
    if p.hasHealth {
      if hasNameText && p.controllerName.Some? {
        nameText := p.controllerName.value;
      }
    }
  }

  /** The slot of a player that is not there: its score text reads "Score: 0" and its name text
      is left as it was. */
  twostate predicate ShowedAbsent()
    reads this
  {
    && (hasScoreText ==> scoreText == "Score: 0")
    && (!hasScoreText ==> scoreText == old(scoreText))
    && nameText == old(nameText)
  }

  method ShowAbsent()
    modifies this
    ensures ShowedAbsent()
  {
    if hasScoreText {
      scoreText := "Score: 0";
    }
  }
}

class HUDManager {
  const hasGameOverPanel: bool
  const hasVictoryPanel: bool
  const hasFinalScoreText: bool
  const player1: PlayerSlot
  const player2: PlayerSlot
  var gameOverPanelActive: bool
  var victoryPanelActive: bool
  var finalScoreText: string

  /** Start hides both end screens (where they exist). */
  constructor (hasGameOverPanel: bool, hasVictoryPanel: bool, hasFinalScoreText: bool,
               player1: PlayerSlot, player2: PlayerSlot)
    ensures this.hasGameOverPanel == hasGameOverPanel && this.hasVictoryPanel == hasVictoryPanel
    ensures this.hasFinalScoreText == hasFinalScoreText
    ensures this.player1 == player1 && this.player2 == player2
    ensures !gameOverPanelActive && !victoryPanelActive
  {
    this.hasGameOverPanel, this.hasVictoryPanel, this.hasFinalScoreText := hasGameOverPanel, hasVictoryPanel, hasFinalScoreText;
    this.player1, this.player2 := player1, player2;
    gameOverPanelActive, victoryPanelActive, finalScoreText := false, false, "";
  }

  /** UpdatePlayerHP: the first two player objects fill the two slots; a slot without a player
      shows "Score: 0". */
  method UpdatePlayerHP(players: seq<HudPlayer>, sm: ScoreManager?)
    requires player1 != player2
    modifies player1, player2
    ensures |players| >= 1 ==> player1.ShowedPlayer(players[0], if sm != null then Some(sm.playerScores) else None)
    ensures |players| >= 2 ==> player2.ShowedPlayer(players[1], if sm != null then Some(sm.playerScores) else None)
    ensures |players| < 1 ==> player1.ShowedAbsent()
    ensures |players| < 2 ==> player2.ShowedAbsent()
  {
    var scores := if sm != null then Some(sm.playerScores) else None;
    if |players| >= 1 {
      player1.ShowPlayer(players[0], scores);
    } else {
      player1.ShowAbsent();
    }
    if |players| >= 2 {
      player2.ShowPlayer(players[1], scores);
    } else {
      player2.ShowAbsent();
    }
  }

  /** HandleGameStateChange: the panel switch; GameOver and Victory, when their panel exists, also
      write the final score and submit the highscores. */
  method HandleGameStateChange(newState: GameState, hm: HighscoreManager?, sm: ScoreManager?,
                               players: seq<HudPlayer>, timestamp: string)
    modifies this, hm
    ensures (gameOverPanelActive, victoryPanelActive) ==
      PanelsAfter(newState, hasGameOverPanel, hasVictoryPanel, old(gameOverPanelActive), old(victoryPanelActive))
    ensures ShowsEndScreen(newState, hasGameOverPanel, hasVictoryPanel) && hasFinalScoreText && sm != null ==>
      finalScoreText == "FINAL SCORE: " + IntToString(sm.teamScore)
    ensures !(ShowsEndScreen(newState, hasGameOverPanel, hasVictoryPanel) && hasFinalScoreText && sm != null) ==>
      finalScoreText == old(finalScoreText)
    ensures hm != null ==>
      hm.submissions == old(hm.submissions) + (
        if ShowsEndScreen(newState, hasGameOverPanel, hasVictoryPanel) && sm != null
        then HighscoreSubmissions(players, sm.teamScore, sm.playerScores) else [])
    ensures !ShowsEndScreen(newState, hasGameOverPanel, hasVictoryPanel) && hm != null ==> unchanged(hm)
  {
    match newState
    case Lobby | Playing =>
      if hasGameOverPanel {
        gameOverPanelActive := false;
      }
      if hasVictoryPanel {
        victoryPanelActive := false;
      }
    case GameOver =>
      if hasGameOverPanel {
        gameOverPanelActive := true;
        UpdateFinalScore(sm);
        SubmitHighscores(hm, sm, players, timestamp);
      }
    case Victory =>
      if hasVictoryPanel {
        victoryPanelActive := true;
        UpdateFinalScore(sm);
        SubmitHighscores(hm, sm, players, timestamp);
      }
  }

  method UpdateFinalScore(sm: ScoreManager?)
    modifies this
    ensures hasFinalScoreText && sm != null ==> finalScoreText == "FINAL SCORE: " + IntToString(sm.teamScore)
    ensures !(hasFinalScoreText && sm != null) ==> finalScoreText == old(finalScoreText)
    ensures gameOverPanelActive == old(gameOverPanelActive) && victoryPanelActive == old(victoryPanelActive)
  {
    if hasFinalScoreText && sm != null {
      finalScoreText := "FINAL SCORE: " + IntToString(sm.teamScore);
    }
  }

  /** SubmitHighscores: nothing without a HighscoreManager or a ScoreManager; otherwise one
      SubmitScore per pair of HighscoreSubmissions, in order. */
  method SubmitHighscores(hm: HighscoreManager?, sm: ScoreManager?, players: seq<HudPlayer>, timestamp: string)
    modifies hm
    ensures hm != null && sm != null ==>
      hm.submissions == old(hm.submissions) + HighscoreSubmissions(players, sm.teamScore, sm.playerScores)
    ensures hm != null && sm == null ==> unchanged(hm)
  {
    if hm == null || sm == null {
      return;
    }
    var teamScore := sm.teamScore;
    if |players| == 0 {
      SubmitPair(hm, "Team", teamScore, timestamp);
      return;
    }
    ghost var subs := HighscoreSubmissions(players, teamScore, sm.playerScores);
    var i := 0;
    while i < |players|
      invariant 0 <= i <= |players|
      invariant hm.submissions == old(hm.submissions) + subs[..i]
    {
      var p := players[i];
      var name := if p.controllerName.Some? then p.controllerName.value else "Player";
      var individualScore := ScoreOf(sm.playerScores, p.obj);
      assert subs[i] == (name, if individualScore > 0 then individualScore else teamScore);
      assert subs[..i + 1] == subs[..i] + [subs[i]];
      SubmitPair(hm, name, if individualScore > 0 then individualScore else teamScore, timestamp);
      i := i + 1;
    }
    assert subs[..i] == subs;
  }
}

/** One HighscoreManager.SubmitScore call, seen only through the submission it logs (what the
    leaderboard does with it is HighscoreManager's contract). */
method SubmitPair(hm: HighscoreManager, name: string, score: int, timestamp: string)
  modifies hm
  ensures hm.submissions == old(hm.submissions) + [(name, score)]
{
  hm.SubmitScore(name, score, timestamp);
}

/** If a Victory and then a GameOver notification arrive in the same frame (both conditions held
    in one GameStateManager update), both end panels end up showing. */
lemma {:induction false} VictoryThenDefeatShowsBothPanels(gameOverShown: bool, victoryShown: bool)
  ensures var afterVictory := PanelsAfter(Victory, true, true, gameOverShown, victoryShown);
    PanelsAfter(GameOver, true, true, afterVictory.0, afterVictory.1) == (true, true)
{
}
