/**
 * A player's match history: each stored match row, seen from the side of
 * the requesting player, becomes an entry naming the opponent, the result
 * ("win", "lose" or "draw") and the score with the requester's points first.
 * The rows are the result of the database query and are taken as input.
 */
module MatchHistory {
  import opened Common

  /** A stored match joined with both players' names; `winner` is "A", "B" or "draw". */
  datatype HistoryRow = HistoryRow(id: int, uuid: string, playerAName: string, playerBName: string,
                                   playerAUuid: string, playerBUuid: string, scoreA: int, scoreB: int,
                                   winner: string, mode: string, date: string)

  /** One entry of the history, oriented to the requester. */
  datatype HistoryEntry = HistoryEntry(uuid: string, date: string, mode: string, opponent: string,
                                       result: string, score: string)

  /** The marker the requester's side carries in the `winner` column. */
  function SideOf(row: HistoryRow, player: string): string
  {
    if row.playerAUuid == player then "A" else "B"
  }

  /** The score text: both numbers as JavaScript renders them, separated by " - ". */
  function ScoreText(mine: int, theirs: int): string
  {
    IntString(mine) + " - " + IntString(theirs)
  }

  function Entry(row: HistoryRow, player: string): (h: HistoryEntry)
    ensures h.uuid == row.uuid && h.date == row.date && h.mode == row.mode
    ensures h.result == "draw" <==> row.winner == "draw"
    ensures h.result == "win" <==> row.winner != "draw" && row.winner == SideOf(row, player)
    ensures h.result == "lose" <==> row.winner != "draw" && row.winner != SideOf(row, player)
    ensures row.playerAUuid == player ==> h.opponent == row.playerBName && h.score == ScoreText(row.scoreA, row.scoreB)
    ensures row.playerAUuid != player ==> h.opponent == row.playerAName && h.score == ScoreText(row.scoreB, row.scoreA)
  {
    var isPlayerA := row.playerAUuid == player;
    var myScore := if isPlayerA then row.scoreA else row.scoreB;
    var opponentScore := if isPlayerA then row.scoreB else row.scoreA;
    var opponentName := if isPlayerA then row.playerBName else row.playerAName;
    HistoryEntry(row.uuid, row.date, row.mode, opponentName,
                 if row.winner == "draw" then "draw"
                 else if row.winner == (if isPlayerA then "A" else "B") then "win"
                 else "lose",
                 ScoreText(myScore, opponentScore))
  }

  /** `getMatchHistory`: one entry per row, in row order. */
  function History(rows: seq<HistoryRow>, player: string): (r: seq<HistoryEntry>)
    ensures |r| == |rows|
    ensures forall i :: 0 <= i < |rows| ==> r[i] == Entry(rows[i], player)
  {
    if |rows| == 0 then [] else [Entry(rows[0], player)] + History(rows[1..], player)
  }

  /**
   * The two players of a decided or drawn match see mirrored entries: each
   * one's opponent is the other, one wins exactly when the other loses, both
   * see a draw together, and the score reads in opposite orders.
   */
  lemma Mirrored(row: HistoryRow)
    requires row.playerAUuid != row.playerBUuid
    requires row.winner == "A" || row.winner == "B" || row.winner == "draw"
    ensures var a := Entry(row, row.playerAUuid);
      var b := Entry(row, row.playerBUuid);
      a.opponent == row.playerBName && b.opponent == row.playerAName &&
      (a.result == "win" <==> b.result == "lose") &&
      (a.result == "lose" <==> b.result == "win") &&
      (a.result == "draw" <==> b.result == "draw") &&
      a.score == ScoreText(row.scoreA, row.scoreB) && b.score == ScoreText(row.scoreB, row.scoreA)
  {
  }

  /** The index of the first space in `s`, or |s| when there is none. */
  function FirstSpace(s: string): (k: nat)
    ensures k <= |s|
    ensures forall i :: 0 <= i < k ==> s[i] != ' '
    ensures k < |s| ==> s[k] == ' '
  {
    if |s| == 0 then 0 else if s[0] == ' ' then 0 else 1 + FirstSpace(s[1..])
  }

  lemma IntStringHasNoSpace(n: int)
    ensures forall i :: 0 <= i < |IntString(n)| ==> IntString(n)[i] != ' '
  {
  }

  lemma {:induction false} FirstSpaceAfter(x: string, rest: string)
    requires forall i :: 0 <= i < |x| ==> x[i] != ' '
    requires |rest| > 0 && rest[0] == ' '
    ensures FirstSpace(x + rest) == |x|
    decreases |x|
  {
    if |x| > 0 {
      assert (x + rest)[1..] == x[1..] + rest;
      FirstSpaceAfter(x[1..], rest);
    }
  }

  lemma IntStringInjective(a: int, b: int)
    requires IntString(a) == IntString(b)
    ensures a == b
  {
    if a < 0 && b < 0 {
      assert Decimal(-a) == IntString(a)[1..];
      assert Decimal(-b) == IntString(b)[1..];
      DecimalInjective(-a, -b);
    } else if a >= 0 && b >= 0 {
      DecimalInjective(a, b);
    }
  }

  /** Joining two space-free texts with " - " loses nothing. */
  lemma SplitAtSeparator(x: string, y: string, u: string, v: string)
    requires forall i :: 0 <= i < |x| ==> x[i] != ' '
    requires forall i :: 0 <= i < |u| ==> u[i] != ' '
    requires x + " - " + y == u + " - " + v
    ensures x == u && y == v
  {
    var s := x + " - " + y;
    assert s == x + (" - " + y) && s == u + (" - " + v);
    FirstSpaceAfter(x, " - " + y);
    FirstSpaceAfter(u, " - " + v);
    assert x == s[..|x|] && u == s[..|u|];
    assert y == s[|x| + 3..] && v == s[|u| + 3..];
  }

  /** The score text determines both scores: reading it back recovers them. */
  lemma ScoreTextInjective(a: int, b: int, c: int, d: int)
    requires ScoreText(a, b) == ScoreText(c, d)
    ensures a == c && b == d
  {
    IntStringHasNoSpace(a);
    IntStringHasNoSpace(c);
    SplitAtSeparator(IntString(a), IntString(b), IntString(c), IntString(d));
    IntStringInjective(a, c);
    IntStringInjective(b, d);
  }
}
