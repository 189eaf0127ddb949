// HighscoreManager: the leaderboard. In JSON mode a submission loads the local list, adds the
// entry, sorts by score (highest first) and keeps the best ten; in PHP mode submissions and loads
// go to a web backend.

datatype HighscoreEntry = HighscoreEntry(playerName: string, score: int, timestamp: string)

/** The local JSON file: missing, or present with what JsonUtility makes of it (None when the
    list or its entries come back null). */
datatype StoredFile = NoFile | StoredJson(entries: Option<seq<HighscoreEntry>>)

/** The outcome of a GET to the highscore backend: a failed request, or a response and what
    JsonUtility makes of it. */
datatype WebResult = RequestFailed | Received(entries: Option<seq<HighscoreEntry>>)

const MaxHighscores: nat := 10

/** Highest score first. The order of equal scores is not specified. */
predicate SortedByScoreDesc(s: seq<HighscoreEntry>)
{
  forall i, j :: 0 <= i < j < |s| ==> s[i].score >= s[j].score
}

/** One step of ordering a list by score: `e` placed among an already ordered list. */
function InsertByScore(e: HighscoreEntry, s: seq<HighscoreEntry>): (r: seq<HighscoreEntry>)
  requires SortedByScoreDesc(s)
  ensures SortedByScoreDesc(r)
  ensures multiset(r) == multiset(s) + multiset{e}
  ensures forall x :: x in r ==> x == e || x in s
  decreases |s|
{
  if |s| == 0 then [e]
  else if e.score >= s[0].score then [e] + s
  else
    var rest := InsertByScore(e, s[1..]);
    assert s == [s[0]] + s[1..];
    BoundedHead(s[0], rest, e, s[1..]);
    [s[0]] + rest
}

/** A head that scores at least as high as everything after it keeps the list ordered. */
lemma BoundedHead(h: HighscoreEntry, rest: seq<HighscoreEntry>, e: HighscoreEntry, tail: seq<HighscoreEntry>)
  requires SortedByScoreDesc(rest)
  requires forall x :: x in rest ==> x == e || x in tail
  requires e.score < h.score && forall x :: x in tail ==> x.score <= h.score
  ensures SortedByScoreDesc([h] + rest)
{
  var r := [h] + rest;
  forall i, j | 0 <= i < j < |r|
    ensures r[i].score >= r[j].score
  {
    if i == 0 {
      assert r[j] in rest;
    } else {
      assert r[i] == rest[i - 1] && r[j] == rest[j - 1];
    }
  }
}

/** entries.Sort((a, b) => b.score.CompareTo(a.score)): the same entries, highest score first. */
function SortByScoreDesc(s: seq<HighscoreEntry>): (r: seq<HighscoreEntry>)
  ensures SortedByScoreDesc(r)
  ensures multiset(r) == multiset(s)
  ensures |r| == |s|
  decreases |s|
{
  if |s| == 0 then []
  else
    assert s == [s[0]] + s[1..];
    InsertByScore(s[0], SortByScoreDesc(s[1..]))
}

/** What one JSON submission must do to the list `before` when `e` is added: the result is ordered
    by score, holds min(10, |before| + 1) entries taken from before + [e], and nothing dropped
    scores higher than anything kept. */
ghost predicate IsTopTenUpdate(before: seq<HighscoreEntry>, e: HighscoreEntry, after: seq<HighscoreEntry>)
{
  && SortedByScoreDesc(after)
  && |after| == (if |before| + 1 < MaxHighscores then |before| + 1 else MaxHighscores)
  && multiset(after) <= multiset(before + [e])
  && (forall d, k :: d in multiset(before + [e]) - multiset(after) && k in after ==> d.score <= k.score)
}

/** RemoveRange(n, Count - n) on an ordered list keeps an ordered prefix, and every removed entry
    scores no higher than every kept one. */
lemma {:induction false} TruncationKeepsTheBest(sorted: seq<HighscoreEntry>, n: nat)
  requires SortedByScoreDesc(sorted) && n <= |sorted|
  ensures SortedByScoreDesc(sorted[..n])
  ensures multiset(sorted) == multiset(sorted[..n]) + multiset(sorted[n..])
  ensures forall d, k :: d in multiset(sorted) - multiset(sorted[..n]) && k in sorted[..n] ==> d.score <= k.score
{
  assert sorted == sorted[..n] + sorted[n..];
  forall d, k | d in multiset(sorted) - multiset(sorted[..n]) && k in sorted[..n]
    ensures d.score <= k.score
  {
    assert d in multiset(sorted[n..]);
    DroppedScoresNoHigher(sorted, n, d, k);
  }
}

/** In an ordered list, an entry past position n scores no higher than one before it. */
lemma DroppedScoresNoHigher(sorted: seq<HighscoreEntry>, n: nat, d: HighscoreEntry, k: HighscoreEntry)
  requires SortedByScoreDesc(sorted) && n <= |sorted|
  requires d in sorted[n..] && k in sorted[..n]
  ensures d.score <= k.score
{
  var i :| n <= i < |sorted| && sorted[i] == d;
  var j :| 0 <= j < n && sorted[j] == k;
}

/** The list after SubmitScoreJSON adds `e` to `before`. */
function TopTenAfterSubmit(before: seq<HighscoreEntry>, e: HighscoreEntry): (r: seq<HighscoreEntry>)
  ensures IsTopTenUpdate(before, e, r)
{
  var sorted := SortByScoreDesc(before + [e]);
  if |sorted| > MaxHighscores then
    TruncationKeepsTheBest(sorted, MaxHighscores);
    sorted[..MaxHighscores]
  else
    TruncationKeepsTheBest(sorted, |sorted|);
    assert sorted[..|sorted|] == sorted;
    sorted
}

/** LoadHighscoresJSON: the stored list, or an empty list when the file is missing or parses to
    null. */
function LoadHighscoresJSON(file: StoredFile): (r: seq<HighscoreEntry>)
  ensures file.NoFile? || file.entries.None? ==> r == []
  ensures file.StoredJson? && file.entries.Some? ==> r == file.entries.value
{
  if file.NoFile? then []
  else if file.entries.None? then []
  else file.entries.value
}

/** The list LoadHighscoresPHP hands to its callback: the parsed entries, or an empty list when
    the request fails or the response does not parse. */
function LoadHighscoresPHPResult(response: WebResult): (r: seq<HighscoreEntry>)
  ensures response.RequestFailed? || response.entries.None? ==> r == []
  ensures response.Received? && response.entries.Some? ==> r == response.entries.value
{
  match response
  case RequestFailed => []
  case Received(None) => []
  case Received(Some(entries)) => entries
}

class HighscoreManager {
  const useJSONFallback: bool
  /** highscores.json under the persistent data path. */
  var file: StoredFile
  var cachedHighscores: seq<HighscoreEntry>
  /** POSTs to the submit endpoint, in order: (player_name, score). */
  var phpSubmissions: seq<(string, int)>
  /** Every SubmitScore call, in order, whichever backend it went to. */
  var submissions: seq<(string, int)>

  constructor (useJSONFallback: bool, file: StoredFile)
    ensures this.useJSONFallback == useJSONFallback && this.file == file
    ensures cachedHighscores == [] && phpSubmissions == [] && submissions == []
  {
    this.useJSONFallback := useJSONFallback;
    this.file := file;
    cachedHighscores, phpSubmissions, submissions := [], [], [];
  }

  /** SubmitScoreJSON: load, add the entry stamped `timestamp` (DateTime.Now, given), sort, keep
      the best ten, write the file and cache the list. */
  method SubmitScoreJSON(playerName: string, score: int, timestamp: string)
    modifies this
    ensures cachedHighscores == TopTenAfterSubmit(LoadHighscoresJSON(old(file)), HighscoreEntry(playerName, score, timestamp))
    ensures IsTopTenUpdate(LoadHighscoresJSON(old(file)), HighscoreEntry(playerName, score, timestamp), cachedHighscores)
    ensures file == StoredJson(Some(cachedHighscores))
    // the file written loads back as the cached list, so the next submission starts from it
    ensures LoadHighscoresJSON(file) == cachedHighscores
    ensures phpSubmissions == old(phpSubmissions) && submissions == old(submissions)
  {
    var entries := LoadHighscoresJSON(file);
    ghost var loaded := entries;
    var newEntry := HighscoreEntry(playerName, score, timestamp);
    entries := entries + [newEntry];
    entries := SortByScoreDesc(entries);
    if |entries| > MaxHighscores {
      entries := entries[..MaxHighscores];
    }
    assert entries == TopTenAfterSubmit(loaded, newEntry);
    file := StoredJson(Some(entries));
    assert LoadHighscoresJSON(file) == entries;
    cachedHighscores := entries;
  }

  /** SubmitScore: the local file in JSON mode, otherwise one POST to the backend whose outcome
      changes nothing. */
  method SubmitScore(playerName: string, score: int, timestamp: string)
    modifies this
    ensures submissions == old(submissions) + [(playerName, score)]
    ensures useJSONFallback ==>
      && cachedHighscores == TopTenAfterSubmit(LoadHighscoresJSON(old(file)), HighscoreEntry(playerName, score, timestamp))
      && file == StoredJson(Some(cachedHighscores)) && phpSubmissions == old(phpSubmissions)
    ensures !useJSONFallback ==>
      && phpSubmissions == old(phpSubmissions) + [(playerName, score)]
      && file == old(file) && cachedHighscores == old(cachedHighscores)
  {
    submissions := submissions + [(playerName, score)];
    if useJSONFallback {
      SubmitScoreJSON(playerName, score, timestamp);
    } else {
      phpSubmissions := phpSubmissions + [(playerName, score)];
    }
  }

  /** LoadHighscores: what the callback receives (None when there is no callback). In JSON mode it
      is the file's list; in PHP mode it is the backend's list, which is also cached, or an empty
      list on failure. */
  method LoadHighscores(hasCallback: bool, response: WebResult) returns (delivered: Option<seq<HighscoreEntry>>)
    modifies this
    ensures file == old(file) && phpSubmissions == old(phpSubmissions) && submissions == old(submissions)
    ensures hasCallback <==> delivered.Some?
    ensures useJSONFallback ==> cachedHighscores == old(cachedHighscores)
    ensures useJSONFallback && hasCallback ==> delivered.value == LoadHighscoresJSON(file)
    ensures !useJSONFallback && hasCallback ==> delivered.value == LoadHighscoresPHPResult(response)
    ensures !useJSONFallback ==>
      cachedHighscores == if response.Received? && response.entries.Some? then response.entries.value
                          else old(cachedHighscores)
  {
    if useJSONFallback {
      delivered := if hasCallback then Some(LoadHighscoresJSON(file)) else None;
    } else {
      if response.Received? && response.entries.Some? {
        cachedHighscores := response.entries.value;
      }
      delivered := if hasCallback then Some(LoadHighscoresPHPResult(response)) else None;
    }
  }

  function GetCachedHighscores(): seq<HighscoreEntry>
    reads this
  {
    cachedHighscores
  }
}

/** A submission never lowers the list below what it was, up to the cap: the best entry after a
    submission scores at least as high as the best before it and at least as high as `e`. */
lemma {:induction false} SubmitKeepsTheTop(before: seq<HighscoreEntry>, e: HighscoreEntry)
  ensures var after := TopTenAfterSubmit(before, e);
    |after| > 0 && after[0].score >= e.score &&
    (forall x :: x in before ==> after[0].score >= x.score)
{
  var after := TopTenAfterSubmit(before, e);
  var all := before + [e];
  var sorted := SortByScoreDesc(all);
  assert after[0] == sorted[0];
  assert e in multiset(sorted) by { assert all[|all| - 1] == e; }
  HeadIsBest(sorted, e);
  forall x | x in before
    ensures sorted[0].score >= x.score
  {
    var i :| 0 <= i < |before| && before[i] == x;
    assert all[i] == x;
    assert x in multiset(sorted);
    HeadIsBest(sorted, x);
  }
}

/** The first entry of a list ordered by score scores at least as high as any entry in it. */
lemma HeadIsBest(sorted: seq<HighscoreEntry>, x: HighscoreEntry)
  requires SortedByScoreDesc(sorted) && x in multiset(sorted)
  ensures |sorted| > 0 && sorted[0].score >= x.score
{
  var i :| 0 <= i < |sorted| && sorted[i] == x;
}
