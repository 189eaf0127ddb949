// LobbyManager: the server-side lobby. Up to two connections register, each toggles ready, and
// when every seat is taken and ready a 3 s countdown starts the game.

/** One lobby seat, keyed by its connection's ClientId. */
datatype PlayerLobbyData = PlayerLobbyData(
  connectionId: int, playerIndex: int, playerName: string, playerColor: Color, isReady: bool)

/** The values StartGameCountdown writes to countdownTime for a duration of n seconds: n, n-1, ..., 1
    (each followed by a one-second wait) and finally 0. */
function CountdownSchedule(n: nat): (r: seq<int>)
  ensures |r| == n + 1
  ensures forall j :: 0 <= j <= n ==> r[j] == n - j
  ensures r[n] == 0
{
  if n == 0 then [0] else [n] + CountdownSchedule(n - 1)
}

/** The seats are full and every seat is ready. */
predicate LobbyReady(seats: map<int, PlayerLobbyData>, maxPlayers: int)
{
  |seats| >= maxPlayers && forall k :: k in seats ==> seats[k].isReady
}

/** `after` holds the seats of `before`, each with its ready flag cleared. */
predicate AllUnreadied(before: map<int, PlayerLobbyData>, after: map<int, PlayerLobbyData>)
{
  && (forall k :: k in after ==> k in before) && (forall k :: k in before ==> k in after)
  && (forall k :: k in after ==> after[k] == before[k].(isReady := false))
}

/** Two dictionaries with the same entries. */
predicate SameEntries(a: map<int, PlayerLobbyData>, b: map<int, PlayerLobbyData>)
{
  && (forall k :: k in a ==> k in b) && (forall k :: k in b ==> k in a)
  && (forall k :: k in a ==> a[k] == b[k])
}

/** One seat that is not ready keeps the lobby from being all ready. */
lemma UnreadySeatBlocksStart(seats: map<int, PlayerLobbyData>, k: int)
  requires k in seats && !seats[k].isReady
  ensures !(forall c :: c in seats ==> seats[c].isReady)
{
}

/** Each seat is keyed by its connection, listed once in `order`, and its index is its
    registration position, below maxPlayers. */
ghost predicate SeatsValid(seats: map<int, PlayerLobbyData>, order: seq<int>, maxPlayers: int)
{
  && |seats| == |order| <= maxPlayers
  && (forall j :: 0 <= j < |order| ==> order[j] in seats)
  && (forall k :: k in seats ==> k in order)
  && (forall i, j :: 0 <= i < j < |order| ==> order[i] != order[j])
  && (forall i :: 0 <= i < |order| ==> seats[order[i]].connectionId == order[i] && seats[order[i]].playerIndex == i)
}

/** Seating a new connection at the next index keeps the seats consistent with their order. */
lemma SeatAdded(seats: map<int, PlayerLobbyData>, order: seq<int>, maxPlayers: int, data: PlayerLobbyData)
  requires SeatsValid(seats, order, maxPlayers)
  requires data.connectionId !in seats && |seats| < maxPlayers && data.playerIndex == |seats|
  ensures SeatsValid(seats[data.connectionId := data], order + [data.connectionId], maxPlayers)
{
  var c := data.connectionId;
  var order' := order + [c];
  assert forall j :: 0 <= j < |order| ==> order'[j] == order[j];
}

/** Every running countdown coroutine has an id below `next` and has written the prefix of the
    schedule that ends just above the counter it will resume with. */
ghost predicate CoroutinesValid(running: map<nat, int>, published: map<nat, seq<int>>, next: nat, n: nat)
{
  forall id :: id in running ==>
    && id < next && 1 <= running[id] <= n && id in published
    && published[id] == CountdownSchedule(n)[..n + 1 - running[id]]
}

/** Starting coroutine `next` after stopping any subset of the running ones keeps the coroutine
    bookkeeping valid: the new one has written just the first value of the schedule. */
lemma CoroutineStarted(running: map<nat, int>, kept: map<nat, int>, published: map<nat, seq<int>>, next: nat, n: nat)
  requires CoroutinesValid(running, published, next, n) && n >= 1
  requires forall id :: id in kept ==> id in running && kept[id] == running[id]
  ensures CoroutinesValid(kept[next := n], published[next := [n]], next + 1, n)
{
  assert CountdownSchedule(n)[..1] == [n];
}

/** Stopping a coroutine leaves the others as they were. */
lemma CoroutineStopped(running: map<nat, int>, published: map<nat, seq<int>>, next: nat, n: nat, id: nat)
  requires CoroutinesValid(running, published, next, n)
  ensures CoroutinesValid(running - {id}, published, next, n)
{
}

/** A coroutine that wakes with counter r > 1 writes r - 1 and will resume with it. */
lemma CoroutineStepped(running: map<nat, int>, published: map<nat, seq<int>>, next: nat, n: nat, id: nat)
  requires CoroutinesValid(running, published, next, n) && id in running && running[id] > 1
  ensures CoroutinesValid(running[id := running[id] - 1], published[id := published[id] + [running[id] - 1]], next, n)
{
  ScheduleExtends(n, running[id]);
}

/** A coroutine that wakes with counter 1 writes 0, has then written the whole schedule, and ends. */
lemma CoroutineFinished(running: map<nat, int>, published: map<nat, seq<int>>, next: nat, n: nat, id: nat)
  requires CoroutinesValid(running, published, next, n) && id in running && running[id] == 1
  ensures CoroutinesValid(running - {id}, published[id := published[id] + [0]], next, n)
  ensures published[id] + [0] == CountdownSchedule(n)
{
  ScheduleExtends(n, 1);
}

/** The loop over the dictionary in CheckAllPlayersReady, in enumeration order `order` (which
    lists every key): true iff no seat is unready. */
method AllPlayersReady(seats: map<int, PlayerLobbyData>, order: seq<int>) returns (allReady: bool)
  requires forall j :: 0 <= j < |order| ==> order[j] in seats
  requires forall k :: k in seats ==> k in order
  ensures allReady <==> forall k :: k in seats ==> seats[k].isReady
{
  var i := 0;
  while i < |order|
    invariant 0 <= i <= |order|
    invariant forall j :: 0 <= j < i ==> seats[order[j]].isReady
  {
    if !seats[order[i]].isReady {
      UnreadySeatBlocksStart(seats, order[i]);
      return false;
    }
    i := i + 1;
  }
  return true;
}

class LobbyManager {
  const maxPlayers: int
  /** (int)countdownDuration, with countdownDuration = 3f. */
  const countdownDuration: nat
  /** GameStateManager.Instance, which may be missing. */
  const gameState: GameStateManager?

  var playerDataDict: map<int, PlayerLobbyData>
  /** The dictionary's keys in enumeration order. Entries are only ever added, so this is the
      order of registration. */
  var seatOrder: seq<int>
  var countdownActive: bool
  var countdownTime: int
  /** The countdownCoroutine handle: which coroutine it names, or null. */
  var countdownCoroutine: Option<nat>
  /** The StartGameCountdown coroutines still running, each with the loop counter `i` its
      WaitForSeconds(1) will resume with. A coroutine that nobody stopped keeps running even after
      its handle was dropped. */
  var running: map<nat, int>
  var nextCoroutine: nat
  /** What each countdown coroutine has written to countdownTime so far. */
  ghost var published: map<nat, seq<int>>
  /** StartGame calls, made by a countdown that ran to its end. */
  var startGameCalls: nat

  ghost predicate Valid()
    reads this
  {
    && maxPlayers == 2 && countdownDuration == 3
    && SeatsValid(playerDataDict, seatOrder, maxPlayers)
    && CoroutinesValid(running, published, nextCoroutine, countdownDuration)
    && (countdownCoroutine.Some? ==> countdownCoroutine.value < nextCoroutine)
    // the coroutine the handle names is running only while the countdown is flagged active
    && (countdownCoroutine.Some? && countdownCoroutine.value in running ==> countdownActive)
  }

  constructor (gameState: GameStateManager?)
    ensures Valid() && this.gameState == gameState
    ensures playerDataDict == map[] && !countdownActive && countdownTime == 3
    ensures countdownCoroutine.None? && running == map[] && startGameCalls == 0
  {
    maxPlayers, countdownDuration := 2, 3;
    this.gameState := gameState;
    playerDataDict, seatOrder, countdownActive, countdownTime := map[], [], false, 3;
    countdownCoroutine, running, nextCoroutine := None, map[], 0;
    published, startGameCalls := map[], 0;
  }

  function IsCountdownActive(): bool reads this { countdownActive }
  function GetCountdownTime(): int reads this { countdownTime }
  function GetPlayerCount(): int reads this { |playerDataDict| }

  /** GetPlayerData: a copy of the dictionary, entry by entry. */
  method GetPlayerData() returns (result: map<int, PlayerLobbyData>)
    requires Valid()
    ensures SameEntries(result, playerDataDict)
  {
    result := map[];
    var i := 0;
    while i < |seatOrder|
      invariant 0 <= i <= |seatOrder|
      invariant forall k :: k in result <==> k in seatOrder[..i]
      invariant forall k :: k in result ==> result[k] == playerDataDict[k]
    {
      var k := seatOrder[i];
      assert seatOrder[..i + 1] == seatOrder[..i] + [k];
      result := result[k := playerDataDict[k]];
      i := i + 1;
    }
    assert seatOrder[..i] == seatOrder;
  }

  /** RegisterPlayerServerRpc: a missing connection, a connection already seated, or a full lobby
      change nothing; otherwise the connection takes the next seat index, not ready. */
  method RegisterPlayer(conn: Option<int>, name: string, color: Color)
    requires Valid()
    modifies this
    ensures Valid()
    ensures conn.None? || conn.value in old(playerDataDict) || |old(playerDataDict)| >= maxPlayers ==>
      playerDataDict == old(playerDataDict)
    ensures conn.Some? && conn.value !in old(playerDataDict) && |old(playerDataDict)| < maxPlayers ==>
      playerDataDict == old(playerDataDict)[conn.value :=
        PlayerLobbyData(conn.value, |old(playerDataDict)|, name, color, false)]
    ensures countdownActive == old(countdownActive) && countdownCoroutine == old(countdownCoroutine)
    ensures running == old(running) && countdownTime == old(countdownTime)
    ensures nextCoroutine == old(nextCoroutine) && startGameCalls == old(startGameCalls)
  {
    if conn.None? {
      return;
    }
    if conn.value in playerDataDict {
      return;
    }
    var playerIndex := |playerDataDict|;
    if playerIndex >= maxPlayers {
      return;
    }
    var data := PlayerLobbyData(conn.value, playerIndex, name, color, false);
    SeatAdded(playerDataDict, seatOrder, maxPlayers, data);
    playerDataDict := playerDataDict[conn.value := data];
    seatOrder := seatOrder + [conn.value];
  }

  /** UpdatePlayerNameServerRpc: renames the caller's seat; unknown or missing callers change nothing. */
  method UpdatePlayerName(conn: Option<int>, newName: string)
    requires Valid()
    modifies this
    ensures Valid()
    ensures conn.None? || conn.value !in old(playerDataDict) ==> playerDataDict == old(playerDataDict)
    ensures conn.Some? && conn.value in old(playerDataDict) ==>
      playerDataDict == old(playerDataDict)[conn.value := old(playerDataDict)[conn.value].(playerName := newName)]
    ensures countdownActive == old(countdownActive) && countdownCoroutine == old(countdownCoroutine)
    ensures running == old(running) && countdownTime == old(countdownTime)
    ensures nextCoroutine == old(nextCoroutine) && startGameCalls == old(startGameCalls)
  {
    if conn.None? {
      return;
    }
    if conn.value in playerDataDict {
      var data := playerDataDict[conn.value];
      playerDataDict := playerDataDict[conn.value := data.(playerName := newName)];
    }
  }

  /** UpdatePlayerColorServerRpc: the same for the colour. */
  method UpdatePlayerColor(conn: Option<int>, newColor: Color)
    requires Valid()
    modifies this
    ensures Valid()
    ensures conn.None? || conn.value !in old(playerDataDict) ==> playerDataDict == old(playerDataDict)
    ensures conn.Some? && conn.value in old(playerDataDict) ==>
      playerDataDict == old(playerDataDict)[conn.value := old(playerDataDict)[conn.value].(playerColor := newColor)]
    ensures countdownActive == old(countdownActive) && countdownCoroutine == old(countdownCoroutine)
    ensures running == old(running) && countdownTime == old(countdownTime)
    ensures nextCoroutine == old(nextCoroutine) && startGameCalls == old(startGameCalls)
  {
    if conn.None? {
      return;
    }
    if conn.value in playerDataDict {
      var data := playerDataDict[conn.value];
      playerDataDict := playerDataDict[conn.value := data.(playerColor := newColor)];
    }
  }

  /** StartCountdown: stop the coroutine the handle names, then start a new one, which runs at once
      up to its first wait: countdownActive set, countdownTime = 3. */
  method StartCountdown()
    requires Valid()
    modifies this
    ensures Valid() && playerDataDict == old(playerDataDict) && startGameCalls == old(startGameCalls)
    ensures countdownActive && countdownTime == countdownDuration
    ensures countdownCoroutine == Some(old(nextCoroutine)) && nextCoroutine == old(nextCoroutine) + 1
    ensures running == (if old(countdownCoroutine).Some? then old(running) - {old(countdownCoroutine).value}
                        else old(running))[old(nextCoroutine) := countdownDuration as int]
  {
    StopNamedCountdown();
    LaunchCountdown();
  }

  /** StopCoroutine on the coroutine the handle names, if any; the handle itself is kept. */
  method StopNamedCountdown()
    requires Valid()
    modifies this
    ensures Valid() && playerDataDict == old(playerDataDict) && seatOrder == old(seatOrder)
    ensures countdownCoroutine.Some? ==> countdownCoroutine.value !in running
    ensures running == if old(countdownCoroutine).Some? then old(running) - {old(countdownCoroutine).value} else old(running)
    ensures countdownCoroutine == old(countdownCoroutine) && nextCoroutine == old(nextCoroutine)
    ensures startGameCalls == old(startGameCalls)
  {
    if countdownCoroutine.Some? {
      CoroutineStopped(running, published, nextCoroutine, countdownDuration, countdownCoroutine.value);
      running := running - {countdownCoroutine.value};
    }
  }

  /** StartCoroutine(StartGameCountdown()) with the handle stored: the new coroutine runs at once
      up to its first wait, setting countdownActive and writing countdownTime = 3. */
  method LaunchCountdown()
    requires Valid()
    modifies this
    ensures Valid() && playerDataDict == old(playerDataDict) && startGameCalls == old(startGameCalls)
    ensures countdownActive && countdownTime == countdownDuration
    ensures countdownCoroutine == Some(old(nextCoroutine)) && nextCoroutine == old(nextCoroutine) + 1
    ensures running == old(running)[old(nextCoroutine) := countdownDuration as int]
  {
    var id := nextCoroutine;
    CoroutineStarted(running, running, published, id, countdownDuration);
    nextCoroutine := nextCoroutine + 1;
    countdownCoroutine := Some(id);
    countdownActive := true;
    countdownTime := countdownDuration;
    running := running[id := countdownDuration];
    published := published[id := [countdownDuration]];
  }

  /** CancelCountdown: stop the coroutine the handle names, drop the handle, clear the flag. */
  method CancelCountdown()
    requires Valid()
    modifies this
    ensures Valid() && playerDataDict == old(playerDataDict) && startGameCalls == old(startGameCalls)
    ensures !countdownActive && countdownCoroutine.None? && countdownTime == old(countdownTime)
    ensures running == if old(countdownCoroutine).Some? then old(running) - {old(countdownCoroutine).value} else old(running)
  {
    if countdownCoroutine.Some? {
      CoroutineStopped(running, published, nextCoroutine, countdownDuration, countdownCoroutine.value);
      running := running - {countdownCoroutine.value};
      countdownCoroutine := None;
    }
    countdownActive := false;
  }

  /** CheckAllPlayersReady: with fewer than maxPlayers seats an active countdown is cancelled;
      otherwise a full, all-ready lobby starts the countdown if none is active and a lobby that is not
      all ready cancels an active one. Together: it starts exactly when the lobby is ready and no
      countdown is flagged, and cancels exactly when it is not ready and one is. */
  method CheckAllPlayersReady()
    requires Valid()
    modifies this
    ensures Valid() && playerDataDict == old(playerDataDict) && startGameCalls == old(startGameCalls)
    ensures countdownActive == LobbyReady(playerDataDict, maxPlayers)
    ensures LobbyReady(playerDataDict, maxPlayers) && !old(countdownActive) ==>
      countdownActive && countdownCoroutine == Some(old(nextCoroutine)) && old(nextCoroutine) in running
    ensures !LobbyReady(playerDataDict, maxPlayers) && old(countdownActive) ==>
      !countdownActive && countdownCoroutine.None?
    ensures LobbyReady(playerDataDict, maxPlayers) == old(countdownActive) ==>
      countdownActive == old(countdownActive) && countdownCoroutine == old(countdownCoroutine) &&
      running == old(running)
  {
    if |playerDataDict| < maxPlayers {
      if countdownActive {
        CancelCountdown();
      }
      return;
    }
    var allReady := AllPlayersReady(playerDataDict, seatOrder);
    if allReady && !countdownActive {
      StartCountdown();
    } else if !allReady && countdownActive {
      CancelCountdown();
    }
  }

  /** ToggleReadyServerRpc: flips the caller's ready flag and re-evaluates the lobby; unknown or
      missing callers change nothing. */
  method ToggleReady(conn: Option<int>)
    requires Valid()
    modifies this
    ensures Valid() && startGameCalls == old(startGameCalls)
    ensures conn.None? || conn.value !in old(playerDataDict) ==>
      playerDataDict == old(playerDataDict) && countdownActive == old(countdownActive) && running == old(running)
    ensures conn.Some? && conn.value in old(playerDataDict) ==>
      playerDataDict == old(playerDataDict)[conn.value := old(playerDataDict)[conn.value].(isReady := !old(playerDataDict)[conn.value].isReady)]
    ensures conn.Some? && conn.value in old(playerDataDict) ==>
      countdownActive == LobbyReady(playerDataDict, maxPlayers)
  {
    if conn.None? {
      return;
    }
    if conn.value in playerDataDict {
      var data := playerDataDict[conn.value];
      playerDataDict := playerDataDict[conn.value := data.(isReady := !data.isReady)];
      CheckAllPlayersReady();
    }
  }

  /** OnStopClient: on the server the lobby is re-evaluated; the departing seat is not removed. */
  method OnStopClient(isServerStarted: bool)
    requires Valid()
    modifies this
    ensures Valid() && playerDataDict == old(playerDataDict) && startGameCalls == old(startGameCalls)
    ensures !isServerStarted ==>
      countdownActive == old(countdownActive) && countdownCoroutine == old(countdownCoroutine) &&
      running == old(running)
    ensures isServerStarted ==> countdownActive == LobbyReady(playerDataDict, maxPlayers)
    ensures isServerStarted && LobbyReady(playerDataDict, maxPlayers) && !old(countdownActive) ==>
      countdownCoroutine == Some(old(nextCoroutine)) && old(nextCoroutine) in running
    ensures isServerStarted && !LobbyReady(playerDataDict, maxPlayers) && old(countdownActive) ==>
      countdownCoroutine.None?
    ensures isServerStarted && LobbyReady(playerDataDict, maxPlayers) == old(countdownActive) ==>
      countdownCoroutine == old(countdownCoroutine) && running == old(running)
  {
    if isServerStarted {
      CheckAllPlayersReady();
    }
  }

  /** One countdown coroutine `id` wakes from its one-second wait: it writes the next lower value,
      or, after 1, writes 0, ends, and calls StartGame. */
  method CountdownStep(id: nat)
    requires Valid() && id in running
    requires gameState != null ==> gameState.Valid()
    modifies this, gameState, if gameState != null then gameState.spawner else null
    ensures Valid() && playerDataDict == old(playerDataDict)
    ensures countdownActive == old(countdownActive) && countdownCoroutine == old(countdownCoroutine)
    ensures gameState != null ==> gameState.Valid()
    // the countdown the handle names writes its values with countdownActive set
    ensures old(countdownCoroutine) == Some(id) ==> countdownActive
    ensures old(running[id]) > 1 ==>
      && countdownTime == old(running[id]) - 1 && running == old(running)[id := old(running[id]) - 1]
      && startGameCalls == old(startGameCalls)
      && (gameState != null ==> unchanged(gameState) && (gameState.spawner != null ==> unchanged(gameState.spawner)))
    ensures old(running[id]) == 1 ==>
      && countdownTime == 0 && running == old(running) - {id} && startGameCalls == old(startGameCalls) + 1
      && id in published && published[id] == CountdownSchedule(countdownDuration)
      && (gameState != null ==> StartedFromLobby(gameState))
  {
    var finished := WriteNextCountdownValue(id);
    // StartGame, whose call WriteNextCountdownValue has counted
    if finished && gameState != null {
      gameState.StartGameFromLobby();
    }
  }

  /** The countdown loop body after a wait: the counter steps down and is written; at 0 the
      coroutine ends and goes on to call StartGame, which is counted here. */
  method WriteNextCountdownValue(id: nat) returns (finished: bool)
    requires Valid() && id in running
    modifies this
    ensures Valid() && playerDataDict == old(playerDataDict) && seatOrder == old(seatOrder)
    ensures countdownActive == old(countdownActive) && countdownCoroutine == old(countdownCoroutine)
    ensures startGameCalls == old(startGameCalls) + (if finished then 1 else 0)
    ensures finished <==> old(running[id]) == 1
    ensures !finished ==> countdownTime == old(running[id]) - 1 && running == old(running)[id := old(running[id]) - 1]
    ensures finished ==>
      countdownTime == 0 && running == old(running) - {id} &&
      id in published && published[id] == CountdownSchedule(countdownDuration)
  {
    if running[id] - 1 > 0 {
      CountdownTick(id);
      finished := false;
    } else {
      CountdownEnd(id);
      finished := true;
    }
  }

  /** A pass of the for loop after its wait, with the counter still above 0: i-- and the new value
      is written to countdownTime. */
  method CountdownTick(id: nat)
    requires Valid() && id in running && running[id] > 1
    modifies this
    ensures Valid() && playerDataDict == old(playerDataDict) && seatOrder == old(seatOrder)
    ensures countdownActive == old(countdownActive) && countdownCoroutine == old(countdownCoroutine)
    ensures startGameCalls == old(startGameCalls)
    ensures countdownTime == old(running[id]) - 1 && running == old(running)[id := old(running[id]) - 1]
  {
    var i := running[id] - 1;
    CoroutineStepped(running, published, nextCoroutine, countdownDuration, id);
    countdownTime := i;
    running := running[id := i];
    published := published[id := published[id] + [i]];
  }

  /** The loop has run out: countdownTime is set to 0, the coroutine ends and calls StartGame. */
  method CountdownEnd(id: nat)
    requires Valid() && id in running && running[id] == 1
    modifies this
    ensures Valid() && playerDataDict == old(playerDataDict) && seatOrder == old(seatOrder)
    ensures countdownActive == old(countdownActive) && countdownCoroutine == old(countdownCoroutine)
    ensures startGameCalls == old(startGameCalls) + 1
    ensures countdownTime == 0 && running == old(running) - {id}
    ensures id in published && published[id] == CountdownSchedule(countdownDuration)
  {
    CoroutineFinished(running, published, nextCoroutine, countdownDuration, id);
    countdownTime := 0;
    running := running - {id};
    published := published[id := published[id] + [0]];
    startGameCalls := startGameCalls + 1;
  }

  /** ResetLobby: every seat unready, the flag cleared and the handle dropped. The running countdown
      coroutine is not stopped, so it still runs to its end and calls StartGame. */
  method ResetLobby()
    requires Valid()
    modifies this
    ensures Valid() && AllUnreadied(old(playerDataDict), playerDataDict)
    ensures !countdownActive && countdownCoroutine.None?
    ensures running == old(running) && countdownTime == old(countdownTime) && startGameCalls == old(startGameCalls)
  {
    playerDataDict := UnreadyAll(playerDataDict, seatOrder);
    countdownActive := false;
    countdownCoroutine := None;
  }
}

/** ResetLobby's loop over the key list: each listed seat has its ready flag cleared. */
method UnreadyAll(seats: map<int, PlayerLobbyData>, keys: seq<int>) returns (r: map<int, PlayerLobbyData>)
  requires forall j :: 0 <= j < |keys| ==> keys[j] in seats
  requires forall k :: k in seats ==> k in keys
  ensures AllUnreadied(seats, r) && |r| == |seats|
{
  r := seats;
  var i := 0;
  while i < |keys|
    invariant 0 <= i <= |keys| && |r| == |seats|
    invariant forall k :: k in r <==> k in seats
    invariant forall k :: k in r ==> r[k] == if k in keys[..i] then seats[k].(isReady := false) else seats[k]
  {
    var key := keys[i];
    assert keys[..i + 1] == keys[..i] + [key];
    r := r[key := r[key].(isReady := false)];
    i := i + 1;
  }
  assert keys[..i] == keys;
}

/** Writing the value below the resume counter r extends the published prefix by one; after
    r = 1 the whole schedule has been written. */
lemma ScheduleExtends(n: nat, r: int)
  requires 1 <= r <= n
  ensures CountdownSchedule(n)[..n + 1 - r] + [r - 1] == CountdownSchedule(n)[..n + 2 - r]
  ensures r == 1 ==> CountdownSchedule(n)[..n + 2 - r] == CountdownSchedule(n)
{
  assert CountdownSchedule(n)[n + 1 - r] == r - 1;
}
