// HighscoreUI: renders the leaderboard as one text block: a header, then up to ten rows of
// rank, name and score in fixed-width columns, or a short fallback message.

/** StringBuilder.AppendLine's line terminator, Environment.NewLine, taken as "\n". */
const NewLine: string := "\n"
const LeaderboardHeader: string := "--- TOP 10 HIGHSCORES ---"
const NoHighscoresText: string := "No highscores yet"
const UnavailableText: string := "Highscores unavailable"
const LoadingText: string := "Loading..."
const MaxNameLength: nat := 15
const NameColumnWidth: nat := 18
const ScoreColumnWidth: nat := 8

/** A name longer than 15 characters becomes its first 15 characters followed by "..". */
function DisplayName(name: string): (r: string)
  ensures |name| <= MaxNameLength ==> r == name
  ensures |name| > MaxNameLength ==> r == name[..MaxNameLength] + ".." && |r| == MaxNameLength + 2
  ensures |r| < NameColumnWidth
{
  if |name| > MaxNameLength then name[..MaxNameLength] + ".." else name
}

/** One leaderboard row, without its line terminator: "{rank}. {name} {score}" with the rank
    padded left to 2, the name padded right to 18 and the score (rendered by `n0`, the
    culture-dependent ToString("N0")) padded left to 8. */
function Row(rank: nat, e: HighscoreEntry, n0: int -> string): string
{
  PadLeft(NatToString(rank), 2) + ". " + PadRight(DisplayName(e.playerName), NameColumnWidth) + " " +
  PadLeft(n0(e.score), ScoreColumnWidth)
}

/** The rows for the first `n` entries, in list order and ranked from 1. */
function RowLines(entries: seq<HighscoreEntry>, n: nat, n0: int -> string): (rows: seq<string>)
  requires n <= |entries|
  ensures |rows| == n
{
  AllRows(entries, n0)[..n]
}

/** A row for every entry of the list, ranked from 1. */
function AllRows(entries: seq<HighscoreEntry>, n0: int -> string): (rows: seq<string>)
  ensures |rows| == |entries|
{
  seq(|entries|, i requires 0 <= i < |entries| => Row(i + 1, entries[i], n0))
}

/** The lines of the leaderboard for a non-empty list: the header, an empty line, and one row for
    each of the first ten entries. */
function LeaderboardLines(entries: seq<HighscoreEntry>, n0: int -> string): (lines: seq<string>)
{
  [LeaderboardHeader, ""] + RowLines(entries, if |entries| < MaxHighscores then |entries| else MaxHighscores, n0)
}

/** StringBuilder.AppendLine for each line in turn. */
function JoinLines(lines: seq<string>): string
  decreases |lines|
{
  if |lines| == 0 then "" else JoinLines(lines[..|lines| - 1]) + lines[|lines| - 1] + NewLine
}

function LeaderboardText(entries: seq<HighscoreEntry>, n0: int -> string): string
{
  JoinLines(LeaderboardLines(entries, n0))
}

/** The leaderboard has the header, the empty line, then exactly min(10, |entries|) rows: row i
    shows entry i with rank i + 1, so later entries never appear. */
lemma LeaderboardShape(entries: seq<HighscoreEntry>, n0: int -> string)
  ensures var lines := LeaderboardLines(entries, n0);
    && |lines| == 2 + (if |entries| < MaxHighscores then |entries| else MaxHighscores)
    && lines[0] == LeaderboardHeader && lines[1] == ""
    && (forall i :: 0 <= i < |lines| - 2 ==> i < |entries| && lines[i + 2] == Row(i + 1, entries[i], n0))
{
  var n := if |entries| < MaxHighscores then |entries| else MaxHighscores;
  forall i | 0 <= i < n
    ensures LeaderboardLines(entries, n0)[i + 2] == Row(i + 1, entries[i], n0)
  {
    LeaderboardRow(entries, n0, i);
  }
}

/** Line i + 2 of the leaderboard is the row of entry i. */
lemma LeaderboardRow(entries: seq<HighscoreEntry>, n0: int -> string, i: nat)
  requires i < |entries| && i < MaxHighscores
  ensures LeaderboardLines(entries, n0)[i + 2] == Row(i + 1, entries[i], n0)
{
  var n := if |entries| < MaxHighscores then |entries| else MaxHighscores;
  var all := AllRows(entries, n0);
  HeadPlusPrefixAt([LeaderboardHeader, ""], all, n, i);
  assert all[i] == Row(i + 1, entries[i], n0);
}

/** Element i of a prefix placed after a head. */
lemma HeadPlusPrefixAt<T>(head: seq<T>, s: seq<T>, n: nat, i: nat)
  requires i < n <= |s|
  ensures (head + s[..n])[|head| + i] == s[i]
{
}

/** Appending line by line: the joined text of a prefix is a prefix of the joined text, so the
    text of the leaderboard begins with its header line and the empty line. */
lemma {:induction false} JoinLinesPrefix(lines: seq<string>, k: nat)
  requires k <= |lines|
  ensures |JoinLines(lines[..k])| <= |JoinLines(lines)|
  ensures JoinLines(lines)[..|JoinLines(lines[..k])|] == JoinLines(lines[..k])
  decreases |lines|
{
  if k < |lines| {
    var init := lines[..|lines| - 1];
    JoinLinesPrefix(init, k);
    assert init[..k] == lines[..k];
    var j := JoinLines(init);
    assert JoinLines(lines) == j + lines[|lines| - 1] + NewLine;
    assert (j + lines[|lines| - 1] + NewLine)[..|j|] == j;
  } else {
    assert lines[..k] == lines;
  }
}

lemma LeaderboardStartsWithHeader(entries: seq<HighscoreEntry>, n0: int -> string)
  ensures var text := LeaderboardText(entries, n0);
    |text| >= |LeaderboardHeader| + 2 && text[..|LeaderboardHeader| + 2] == LeaderboardHeader + NewLine + NewLine
{
  var lines := LeaderboardLines(entries, n0);
  JoinLinesPrefix(lines, 2);
  assert lines[..2] == [LeaderboardHeader, ""];
  JoinTwo(LeaderboardHeader, "");
}

/** Ranks 1 to 9 are padded with one space and rank 10 fills the field, so the rank field is
    always exactly two characters wide. */
lemma RankField(rank: nat)
  requires 1 <= rank <= MaxHighscores
  ensures rank < 10 ==> PadLeft(NatToString(rank), 2) == [' ', DigitChar(rank)]
  ensures rank == 10 ==> PadLeft(NatToString(rank), 2) == "10"
  ensures |PadLeft(NatToString(rank), 2)| == 2
{
  if rank == 10 {
    assert NatToString(10) == NatToString(1) + [DigitChar(0)];
  }
}

/** Slicing a concatenation of five fields of widths 2, 2, 18 and 1 and a last one of any width. */
lemma FiveFields<T>(a: seq<T>, b: seq<T>, c: seq<T>, d: seq<T>, e: seq<T>)
  requires |a| == 2 && |b| == 2 && |c| == 18 && |d| == 1
  ensures |a + b + c + d + e| == 23 + |e|
  ensures (a + b + c + d + e)[..2] == a
  ensures (a + b + c + d + e)[2..4] == b
  ensures (a + b + c + d + e)[4..22] == c
  ensures (a + b + c + d + e)[22] == d[0]
  ensures (a + b + c + d + e)[23..] == e
{
}

/** The columns line up: in every row the rank takes characters 0-1, ". " characters 2-3, the
    padded name characters 4-21, a space character 22, and the score starts at character 23,
    however long the name is. */
lemma RowColumns(rank: nat, e: HighscoreEntry, n0: int -> string)
  requires 1 <= rank <= MaxHighscores
  ensures |Row(rank, e, n0)| >= 23 + ScoreColumnWidth
  ensures Row(rank, e, n0)[..2] == PadLeft(NatToString(rank), 2)
  ensures Row(rank, e, n0)[2..4] == ". "
  ensures Row(rank, e, n0)[4..22] == PadRight(DisplayName(e.playerName), NameColumnWidth)
  ensures Row(rank, e, n0)[22] == ' '
  ensures Row(rank, e, n0)[23..] == PadLeft(n0(e.score), ScoreColumnWidth)
{
  RankField(rank);
  var rankText := PadLeft(NatToString(rank), 2);
  var nameText := PadRight(DisplayName(e.playerName), NameColumnWidth);
  var scoreText := PadLeft(n0(e.score), ScoreColumnWidth);
  assert |rankText| == 2 && |nameText| == NameColumnWidth && |scoreText| >= ScoreColumnWidth;
  FiveFields(rankText, ". ", nameText, " ", scoreText);
  assert Row(rank, e, n0) == rankText + ". " + nameText + " " + scoreText;
}

/** Appending one line to the builder. */
lemma JoinSnoc(lines: seq<string>, x: string)
  ensures JoinLines(lines + [x]) == JoinLines(lines) + x + NewLine
{
  assert (lines + [x])[..|lines|] == lines;
}

/** One more row appended to the lines joined so far. */
lemma AppendRow(head: seq<string>, entries: seq<HighscoreEntry>, i: nat, n0: int -> string)
  requires i < |entries|
  ensures JoinLines(head + RowLines(entries, i + 1, n0)) ==
    JoinLines(head + RowLines(entries, i, n0)) + Row(i + 1, entries[i], n0) + NewLine
{
  var rows := RowLines(entries, i, n0);
  var r := Row(i + 1, entries[i], n0);
  PrefixSnoc(AllRows(entries, n0), i);
  assert RowLines(entries, i + 1, n0) == rows + [r];
  assert head + RowLines(entries, i + 1, n0) == (head + rows) + [r];
  JoinSnoc(head + rows, r);
}

/** A prefix one longer is the prefix and the next element. */
lemma PrefixSnoc<T>(s: seq<T>, k: nat)
  requires k < |s|
  ensures s[..k + 1] == s[..k] + [s[k]]
{
}

/** The first two lines, joined. */
lemma JoinTwo(a: string, b: string)
  ensures JoinLines([a, b]) == a + NewLine + b + NewLine
{
  JoinSnoc([], a);
  assert [a] == [] + [a];
  JoinSnoc([a], b);
  assert [a, b] == [a] + [b];
}

/** The body of the StringBuilder loop: the rank padded to 2, the name cut to 15 characters plus
    ".." when longer and padded to 18, and the N0-rendered score padded to 8. */
method FormatRow(rank: nat, e: HighscoreEntry, n0: int -> string) returns (line: string)
  ensures line == Row(rank, e, n0)
{
  var name := e.playerName;
  if |name| > MaxNameLength {
    name := name[..MaxNameLength] + "..";
  }
  line := PadLeft(NatToString(rank), 2) + ". " + PadRight(name, NameColumnWidth) + " " +
    PadLeft(n0(e.score), ScoreColumnWidth);
}

/** The StringBuilder loop of OnHighscoresLoaded: the header line, an empty line, then one
    formatted row per entry while fewer than ten have been written. */
method BuildLeaderboard(list: seq<HighscoreEntry>, n0: int -> string) returns (sb: string)
  ensures sb == LeaderboardText(list, n0)
{
  sb := LeaderboardHeader + NewLine;
  sb := sb + NewLine;
  assert [LeaderboardHeader, ""] + RowLines(list, 0, n0) == [LeaderboardHeader, ""];
  JoinTwo(LeaderboardHeader, "");
  var i := 0;
  while i < |list| && i < MaxHighscores
    invariant 0 <= i <= |list| && i <= MaxHighscores
    invariant sb == JoinLines([LeaderboardHeader, ""] + RowLines(list, i, n0))
  {
    var line := FormatRow(i + 1, list[i], n0);
    AppendRow([LeaderboardHeader, ""], list, i, n0);
    sb := sb + line + NewLine;
    i := i + 1;
  }
}

class HighscoreUI {
  /** highscoreListText is assigned in the inspector and may be missing. */
  const hasText: bool
  /** highscoreListText.text. */
  var text: string
  /** Every text handed to DisplayFallbackText, in order. */
  var displayed: seq<string>

  constructor (hasText: bool)
    ensures this.hasText == hasText && text == "" && displayed == []
  {
    this.hasText := hasText;
    text, displayed := "", [];
  }

  /** DisplayFallbackText: sets the text when the text element exists. */
  method DisplayFallbackText(t: string)
    modifies this
    ensures displayed == old(displayed) + [t]
    ensures text == if hasText then t else old(text)
  {
    displayed := displayed + [t];
    if hasText {
      text := t;
    }
  }

  /** OnHighscoresLoaded: a null (None) or empty list shows "No highscores yet"; otherwise the
      header and the rows are built line by line and shown. */
  method OnHighscoresLoaded(entries: Option<seq<HighscoreEntry>>, n0: int -> string)
    modifies this
    ensures entries.None? || |entries.value| == 0 ==> displayed == old(displayed) + [NoHighscoresText]
    ensures entries.Some? && |entries.value| > 0 ==>
      displayed == old(displayed) + [LeaderboardText(entries.value, n0)]
    ensures text == if hasText then displayed[|displayed| - 1] else old(text)
  {
    if entries.None? || |entries.value| == 0 {
      DisplayFallbackText(NoHighscoresText);
      assert displayed[|displayed| - 1] == NoHighscoresText;
      return;
    }
    var sb := BuildLeaderboard(entries.value, n0);
    DisplayFallbackText(sb);
    assert displayed[|displayed| - 1] == sb;
  }

  /** RefreshHighscores: "Highscores unavailable" without a manager; otherwise "Loading..." and
      then whatever the manager's load hands back (`response` is the backend's answer in PHP
      mode). The callback is taken to run before the next refresh. */
  method RefreshHighscores(manager: HighscoreManager?, response: WebResult, n0: int -> string)
    modifies this, manager
    ensures manager == null ==> displayed == old(displayed) + [UnavailableText] && text == (if hasText then UnavailableText else old(text))
    ensures manager != null ==>
      var loaded := if manager.useJSONFallback then LoadHighscoresJSON(manager.file) else LoadHighscoresPHPResult(response);
      && |displayed| == |old(displayed)| + 2
      && displayed[..|old(displayed)| + 1] == old(displayed) + [LoadingText]
      && displayed[|displayed| - 1] == (if |loaded| == 0 then NoHighscoresText else LeaderboardText(loaded, n0))
      && manager.file == old(manager.file)
    ensures text == if hasText then displayed[|displayed| - 1] else old(text)
  {
    if manager == null {
      DisplayFallbackText(UnavailableText);
      return;
    }
    DisplayFallbackText(LoadingText);
    var delivered := manager.LoadHighscores(true, response);
    OnHighscoresLoaded(delivered, n0);
  }
}
