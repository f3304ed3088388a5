/** The values the match-detail view computes from one canonical match:
    each side's result, the season shown, the status rows and how much of
    the head-to-head list is shown. Scores and elapsed time are the typed
    `number | null` of the record, here `Option<int>`. */
module MatchDetails {
  import opened Js

  /** `calcResult`'s labels: win, loss, draw and "no result". */
  datatype Outcome = Win | Loss | Draw | NoResult

  /** `calcResult(isHome)`: no result unless both scores are known, else
      the comparison of this side's score with the opponent's. */
  function CalcResult(home: Option<int>, away: Option<int>, isHome: bool): (r: Outcome)
    ensures r == NoResult <==> home.None? || away.None?
    ensures var own := if isHome then home else away;
            var opp := if isHome then away else home;
            && (r == Win <==> own.Some? && opp.Some? && own.value > opp.value)
            && (r == Loss <==> own.Some? && opp.Some? && own.value < opp.value)
            && (r == Draw <==> own.Some? && opp.Some? && own.value == opp.value)
  {
    var teamScore := if isHome then home else away;
    var oppScore := if isHome then away else home;
    if teamScore.None? || oppScore.None? then NoResult
    else if teamScore.value > oppScore.value then Win
    else if teamScore.value < oppScore.value then Loss
    else Draw
  }

  /** The two sides' results mirror each other. */
  lemma {:induction false} ResultsComplementary(home: Option<int>, away: Option<int>)
    ensures CalcResult(home, away, true) == Win <==> CalcResult(home, away, false) == Loss
    ensures CalcResult(home, away, true) == Loss <==> CalcResult(home, away, false) == Win
    ensures CalcResult(home, away, true) == Draw <==> CalcResult(home, away, false) == Draw
    ensures CalcResult(home, away, true) == NoResult <==> CalcResult(home, away, false) == NoResult
  {
  }

  /** The season row: `String(season)` when the season is neither null,
      undefined nor `""`, else the year of the date (a number). */
  function SeasonShown(season: Json, date: Json, yearOf: Json -> int): (v: Json)
    ensures !Nullish(season) && season != Str("") ==> v == Str(JsString(season))
    ensures Nullish(season) || season == Str("") ==> v == Num(yearOf(date))
  {
    if !Nullish(season) && season != Str("") then Str(JsString(season)) else Num(yearOf(date))
  }

  /** A score cell: the number, or `"-"` when it is null. */
  function ScoreCell(score: Option<int>): (s: string)
    ensures s == "-" <==> score.None?
    ensures ' ' !in s
  {
    match score
    case None => "-"
    case Some(n) => IntToString(n)
  }

  /** Distinct scores show as distinct cells. */
  lemma ScoreCellInjective(a: Option<int>, b: Option<int>)
    requires ScoreCell(a) == ScoreCell(b)
    ensures a == b
  {
    if a.Some? && b.Some? {
      IntToStringInjective(a.value, b.value);
    }
  }

  const EmDash: string := "\U{2014}"

  datatype StatusInfo = StatusInfo(state: string, code: string, elapsed: string, score: string)

  /** The score row `"h : a"`. */
  function ScoreText(home: Option<int>, away: Option<int>): string {
    ScoreCell(home) + " : " + ScoreCell(away)
  }

  /** The status rows: the long label; the code, or a dash when empty; the
      elapsed minutes as `N' min` only when known; the score row. */
  function StatusRows(long: string, short: string, elapsed: Option<int>, home: Option<int>, away: Option<int>): (rows: StatusInfo)
    ensures rows.state == long
    ensures short != "" ==> rows.code == short
    ensures short == "" ==> rows.code == EmDash
    ensures elapsed.None? ==> rows.elapsed == EmDash
    ensures elapsed.Some? ==> rows.elapsed == IntToString(elapsed.value) + "' min"
    ensures rows.score == ScoreText(home, away)
  {
    StatusInfo(
      long,
      if short != "" then short else EmDash,
      if elapsed.Some? then IntToString(elapsed.value) + "' min" else EmDash,
      ScoreText(home, away))
  }

  /** The score row tells every pair of scores apart, a missing side included. */
  lemma {:induction false} ScoreTextInjective(h1: Option<int>, a1: Option<int>, h2: Option<int>, a2: Option<int>)
    requires ScoreText(h1, a1) == ScoreText(h2, a2)
    ensures h1 == h2 && a1 == a2
  {
    var c1, c2 := ScoreCell(h1), ScoreCell(h2);
    var d1, d2 := ScoreCell(a1), ScoreCell(a2);
    assert c1 + " : " + d1 == c1 + [' '] + (": " + d1);
    assert c2 + " : " + d2 == c2 + [' '] + (": " + d2);
    JoinedWithSeparator(c1, ": " + d1, ' ', c2, ": " + d2);
    assert d1 == (": " + d1)[2..] == (": " + d2)[2..] == d2;
    ScoreCellInjective(h1, h2);
    ScoreCellInjective(a1, a2);
  }

  /** The elapsed row tells every two elapsed times apart. */
  lemma ElapsedRowInjective(long: string, short: string, e1: Option<int>, e2: Option<int>, home: Option<int>, away: Option<int>)
    requires StatusRows(long, short, e1, home, away).elapsed == StatusRows(long, short, e2, home, away).elapsed
    ensures e1 == e2
  {
    if e1.Some? && e2.Some? {
      var s1, s2 := IntToString(e1.value), IntToString(e2.value);
      assert s1 + "' min" == s2 + "' min";
      assert |s1| == |s2|;
      assert s1 == (s1 + "' min")[..|s1|] == (s2 + "' min")[..|s2|] == s2;
      IntToStringInjective(e1.value, e2.value);
    }
  }

  const HeadToHeadLimit: nat := 6

  /** `headToHead.slice(0, 6)`: the first six entries, or all of them when
      there are fewer. */
  function HeadToHeadShown<T>(headToHead: seq<T>): (shown: seq<T>)
    ensures |shown| <= HeadToHeadLimit
    ensures shown <= headToHead
    ensures |headToHead| <= HeadToHeadLimit ==> shown == headToHead
    ensures |headToHead| > HeadToHeadLimit ==> |shown| == HeadToHeadLimit
  {
    if |headToHead| <= HeadToHeadLimit then headToHead else headToHead[..HeadToHeadLimit]
  }

  /** The head-to-head section appears only when the list is non-empty. */
  predicate ShowsHeadToHead<T>(headToHead: seq<T>) {
    |headToHead| > 0
  }

  /** The "could not load" note: the comparison is hidden and the list is empty. */
  predicate ShowsLoadNote<T>(showComparison: bool, headToHead: seq<T>) {
    !showComparison && !ShowsHeadToHead(headToHead)
  }

  /** The note and the head-to-head section never appear together, and
      with the comparison hidden exactly one of them appears. */
  lemma NoteExcludesHeadToHead<T>(showComparison: bool, headToHead: seq<T>)
    ensures !(ShowsLoadNote(showComparison, headToHead) && ShowsHeadToHead(headToHead))
    ensures !showComparison ==> (ShowsLoadNote(showComparison, headToHead) != ShowsHeadToHead(headToHead))
  {
  }
}
