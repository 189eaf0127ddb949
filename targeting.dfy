// The nearest-living-player search that EnemyChaser.FindNearestPlayer and
// EnemyShooter.FindNearestPlayer both run (the two bodies are identical).

/** The PlayerHealth component of a player object as a target search sees it. */
datatype HealthView = NoHealthComponent | HealthComponent(dead: bool)

/** One entry of FindGameObjectsWithTag("Player"): its identity, its PlayerHealth, and its distance
    from the searching enemy (Vector2.Distance, given). */
datatype PlayerView = PlayerView(id: int, health: HealthView, distance: real)

/** Only a player whose PlayerHealth says dead is skipped; one without PlayerHealth is a target. */
predicate Targetable(p: PlayerView)
{
  !(p.health.HealthComponent? && p.health.dead)
}

/** FindGameObjectsWithTag returns every player object once, so no two entries share an id. */
predicate DistinctIds(players: seq<PlayerView>)
{
  forall i, j :: 0 <= i < j < |players| ==> players[i].id != players[j].id
}

predicate SomeTargetable(players: seq<PlayerView>)
{
  exists j :: 0 <= j < |players| && Targetable(players[j])
}

/** Player k is the one the search settles on: targetable, no farther than any targetable player,
    and strictly nearer than every targetable player before it. */
predicate IsFirstNearest(players: seq<PlayerView>, k: int)
{
  && 0 <= k < |players|
  && Targetable(players[k])
  && (forall j :: 0 <= j < |players| && Targetable(players[j]) ==> players[k].distance <= players[j].distance)
  && (forall j :: 0 <= j < k && Targetable(players[j]) ==> players[k].distance < players[j].distance)
}

/** At most one player is the first nearest one. */
lemma FirstNearestUnique(players: seq<PlayerView>, k1: int, k2: int)
  requires IsFirstNearest(players, k1) && IsFirstNearest(players, k2)
  ensures k1 == k2
{
}

/** The loop over the players with a running minimum that starts at infinity: the first strictly
    closest targetable player, or none when every player is dead. */
method NearestAlive(players: seq<PlayerView>) returns (closest: Option<nat>)
  ensures closest.None? <==> !SomeTargetable(players)
  ensures closest.Some? ==> IsFirstNearest(players, closest.value)
{
  closest := None;
  var closestDistance: real := 0.0;
  var i := 0;
  while i < |players|
    invariant 0 <= i <= |players|
    invariant closest.None? <==> forall j :: 0 <= j < i ==> !Targetable(players[j])
    invariant closest.Some? ==>
      && closest.value < i
      && Targetable(players[closest.value])
      && closestDistance == players[closest.value].distance
      && (forall j :: 0 <= j < i && Targetable(players[j]) ==> closestDistance <= players[j].distance)
      && (forall j :: 0 <= j < closest.value && Targetable(players[j]) ==> closestDistance < players[j].distance)
  {
    var p := players[i];
    if Targetable(p) {
      // `distance < closestDistance` with closestDistance = Mathf.Infinity before the first hit
      if closest.None? || p.distance < closestDistance {
        closest := Some(i);
        closestDistance := p.distance;
      }
    }
    i := i + 1;
  }
}

/** Where a target search leaves the target: unchanged when there are no player objects, otherwise
    the id of the first nearest targetable player, or null exactly when none is targetable. */
ghost predicate Retargeted(players: seq<PlayerView>, previous: Option<int>, target: Option<int>)
{
  if |players| == 0 then target == previous
  else if target.None? then !SomeTargetable(players)
  else exists k :: IsFirstNearest(players, k) && players[k].id == target.value
}

/** A search has one outcome: two targets that both satisfy Retargeted are the same. */
lemma RetargetedIsDetermined(players: seq<PlayerView>, previous: Option<int>, t1: Option<int>, t2: Option<int>)
  requires Retargeted(players, previous, t1) && Retargeted(players, previous, t2)
  ensures t1 == t2
{
  if |players| > 0 && t1.Some? && t2.Some? {
    var k1 :| IsFirstNearest(players, k1) && players[k1].id == t1.value;
    var k2 :| IsFirstNearest(players, k2) && players[k2].id == t2.value;
    FirstNearestUnique(players, k1, k2);
  }
}

/** FindNearestPlayer: the target as Retargeted describes it. With distinct ids the new target is
    alive whenever some player is targetable, and missing otherwise. */
method FindNearestTarget(players: seq<PlayerView>, current: Option<int>) returns (target: Option<int>)
  ensures Retargeted(players, current, target)
  ensures |players| > 0 && DistinctIds(players) ==>
    TargetState(players, target) == if SomeTargetable(players) then TargetLive else TargetMissing
{
  if |players| == 0 {
    // "No players found!": the target is left as it was
    return current;
  }
  var c := NearestAlive(players);
  target := if c.Some? then Some(players[c.value].id) else None;
  if c.Some? && DistinctIds(players) {
    NearestIsLive(players, c.value);
  }
}

datatype TargetCheck = TargetMissing | TargetDead | TargetLive

/** Entry k is the first player object with the given id. */
predicate FirstMatch(players: seq<PlayerView>, id: int, k: int)
{
  0 <= k < |players| && players[k].id == id && forall j :: 0 <= j < k ==> players[j].id != id
}

/** Whether the current target is dropped as dead: a target that is no longer among the player
    objects compares equal to null, and otherwise the PlayerHealth of that object decides. */
function TargetState(players: seq<PlayerView>, target: Option<int>): (r: TargetCheck)
  ensures target.None? ==> r == TargetMissing
  ensures target.Some? ==>
    && (r == TargetMissing <==> forall k :: 0 <= k < |players| ==> players[k].id != target.value)
    && (r == TargetLive <==> exists k :: FirstMatch(players, target.value, k) && Targetable(players[k]))
    && (r == TargetDead <==> exists k :: FirstMatch(players, target.value, k) && !Targetable(players[k]))
{
  if target.None? then TargetMissing
  else FindById(players, target.value)
}

/** The verdict on the first player object with the id: missing when there is none, otherwise
    live or dead as its PlayerHealth says. */
function FindById(players: seq<PlayerView>, id: int): (r: TargetCheck)
  ensures r == TargetMissing <==> forall k :: 0 <= k < |players| ==> players[k].id != id
  ensures r == TargetLive <==> exists k :: FirstMatch(players, id, k) && Targetable(players[k])
  ensures r == TargetDead <==> exists k :: FirstMatch(players, id, k) && !Targetable(players[k])
  decreases |players|
{
  if |players| == 0 then TargetMissing
  else if players[0].id == id then
    assert FirstMatch(players, id, 0);
    FirstMatchAtHead(players, id);
    if Targetable(players[0]) then TargetLive else TargetDead
  else
    var r := FindById(players[1..], id);
    FirstMatchShift(players, id);
    r
}

/** When the head has the id, it is the only first match. */
lemma FirstMatchAtHead(players: seq<PlayerView>, id: int)
  requires |players| > 0 && players[0].id == id
  ensures forall k :: FirstMatch(players, id, k) ==> k == 0
{
}

/** When the head has another id, first matches in the list are first matches in its tail,
    shifted by one. */
lemma FirstMatchShift(players: seq<PlayerView>, id: int)
  requires |players| > 0 && players[0].id != id
  ensures forall k :: FirstMatch(players, id, k) <==> k > 0 && FirstMatch(players[1..], id, k - 1)
  ensures (forall k :: 0 <= k < |players| ==> players[k].id != id) <==>
          (forall k :: 0 <= k < |players| - 1 ==> players[1..][k].id != id)
{
  forall k | k > 0 && FirstMatch(players[1..], id, k - 1)
    ensures FirstMatch(players, id, k)
  {
    forall j | 0 <= j < k
      ensures players[j].id != id
    {
      if j > 0 {
        assert players[j] == players[1..][j - 1];
      }
    }
  }
  forall k | FirstMatch(players, id, k)
    ensures k > 0 && FirstMatch(players[1..], id, k - 1)
  {
    forall j | 0 <= j < k - 1
      ensures players[1..][j].id != id
    {
      assert players[1..][j] == players[j + 1];
    }
  }
  if forall k :: 0 <= k < |players| - 1 ==> players[1..][k].id != id {
    forall k | 0 <= k < |players|
      ensures players[k].id != id
    {
      if k > 0 {
        assert players[k] == players[1..][k - 1];
      }
    }
  }
}

/** With distinct ids, the id of the first nearest player names a live target. */
lemma NearestIsLive(players: seq<PlayerView>, k: int)
  requires DistinctIds(players) && IsFirstNearest(players, k)
  ensures TargetState(players, Some(players[k].id)) == TargetLive
{
  assert FirstMatch(players, players[k].id, k);
}
