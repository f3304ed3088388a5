/** The classifiers of the match card: the status code sets, the visual
    variant a status maps to, the abbreviated half-time labels and which
    score is shown in bold. */
module MatchCard {
  import opened Js
  import MatchDetails

  const LiveCodes: set<string> :=
    {"LIVE", "1H", "2H", "3H", "4H", "OT", "HT", "Q1", "Q2", "Q3", "Q4", "ST", "P1", "P2", "P3"}

  const FinishedCodes: set<string> :=
    {"FT", "AOT", "FT_PEN", "FT_OT", "FINAL", "ENDED", "AFTER OT", "FT.ET"}

  const ScheduledCodes: set<string> :=
    {"NS", "TBD", "POSTP", "CANC", "SCHED", "NOT STARTED"}

  /** No code belongs to two of the sets. */
  lemma CodeSetsDisjoint()
    ensures LiveCodes !! FinishedCodes
    ensures LiveCodes !! ScheduledCodes
    ensures FinishedCodes !! ScheduledCodes
  {
  }

  datatype StatusVariant = Live | Finished | Scheduled | Default

  // ASCII case mapping; see README for the Unicode cases left out.
  function UpperChar(c: char): char {
    if 'a' <= c <= 'z' then (c as int - 32) as char else c
  }

  function LowerChar(c: char): char {
    if 'A' <= c <= 'Z' then (c as int + 32) as char else c
  }

  function ToUpper(s: string): string {
    seq(|s|, i requires 0 <= i < |s| => UpperChar(s[i]))
  }

  function ToLower(s: string): string {
    seq(|s|, i requires 0 <= i < |s| => LowerChar(s[i]))
  }

  /** `part` occurs in `s` starting at index `i`. */
  predicate OccursAt(s: string, part: string, i: int) {
    0 <= i && i + |part| <= |s| && s[i..i + |part|] == part
  }

  /** `s.includes(part)`. */
  predicate Contains(s: string, part: string) {
    exists i | 0 <= i <= |s| - |part| :: OccursAt(s, part, i)
  }

  /** `(short || long || "").toUpperCase()`. */
  function StatusCode(short: string, long: string): string {
    ToUpper(if short != "" then short else long)
  }

  predicate LiveSignal(short: string, long: string) {
    StatusCode(short, long) in LiveCodes || Contains(ToLower(long), "live") || Contains(ToLower(long), "in play")
  }

  predicate FinishedSignal(short: string, long: string) {
    StatusCode(short, long) in FinishedCodes || Contains(ToLower(long), "finished") || Contains(ToLower(long), "ended")
  }

  predicate ScheduledSignal(short: string, long: string) {
    StatusCode(short, long) in ScheduledCodes || Contains(ToLower(long), "scheduled") || Contains(ToLower(long), "not started")
  }

  /** `resolveStatusVariant`: the first of live, finished and scheduled whose
      code set or phrase matches; a live signal beats every other signal and
      the default is chosen exactly when nothing matches. */
  function ResolveStatusVariant(short: string, long: string): (v: StatusVariant)
    ensures v == Live <==> LiveSignal(short, long)
    ensures v == Default <==> !LiveSignal(short, long) && !FinishedSignal(short, long) && !ScheduledSignal(short, long)
    ensures v == Finished ==> FinishedSignal(short, long)
    ensures v == Scheduled ==> ScheduledSignal(short, long) && !FinishedSignal(short, long)
  {
    var code := StatusCode(short, long);
    var lower := ToLower(long);
    if code in LiveCodes || Contains(lower, "live") || Contains(lower, "in play") then Live
    else if code in FinishedCodes || Contains(lower, "finished") || Contains(lower, "ended") then Finished
    else if code in ScheduledCodes || Contains(lower, "scheduled") || Contains(lower, "not started") then Scheduled
    else Default
  }

  /** None of the six phrases occurs in the lower-cased long label. */
  predicate NoPhrase(long: string) {
    var lower := ToLower(long);
    && !Contains(lower, "live") && !Contains(lower, "in play")
    && !Contains(lower, "finished") && !Contains(lower, "ended")
    && !Contains(lower, "scheduled") && !Contains(lower, "not started")
  }

  /** Without a phrase, the code alone decides: each variant is chosen
      exactly when the code is in that variant's set. */
  lemma CodeDecidesVariant(short: string, long: string)
    requires NoPhrase(long)
    ensures var v := ResolveStatusVariant(short, long);
            var code := StatusCode(short, long);
            && (v == Live <==> code in LiveCodes)
            && (v == Finished <==> code in FinishedCodes)
            && (v == Scheduled <==> code in ScheduledCodes)
            && (v == Default <==> code !in LiveCodes + FinishedCodes + ScheduledCodes)
  {
    CodeSetsDisjoint();
  }

  /** The short code wins over the long label; an empty short code defers to it. */
  lemma StatusCodeSource(short: string, long: string)
    ensures short != "" ==> StatusCode(short, long) == ToUpper(short)
    ensures short == "" ==> StatusCode(short, long) == ToUpper(long)
  {
  }

  /** Lower-case codes are recognised: `ft` finishes a match. */
  lemma LowerCaseCodeRecognised()
    ensures ResolveStatusVariant("ft", "") == Finished
    ensures ResolveStatusVariant("", "ns") == Scheduled
  {
    assert ToUpper("ft") == "FT";
    assert ToUpper("ns") == "NS";
  }

  /** A live phrase in the long label overrides a finished short code. */
  lemma LivePhraseOverridesCode()
    ensures ResolveStatusVariant("FT", "Live") == Live
  {
    assert ToLower("Live") == "live";
    assert OccursAt("live", "live", 0);
  }

  /** `shortStatus`: the two half labels are abbreviated, every other label
      is kept, and the result is never longer than the label. */
  function ShortStatus(status: string): (r: string)
    ensures status == "Second Half" ==> r == "SH"
    ensures status == "First Half" ==> r == "FH"
    ensures status != "Second Half" && status != "First Half" ==> r == status
    ensures |r| <= |status|
  {
    if status == "Second Half" then "SH"
    else if status == "First Half" then "FH"
    else status
  }

  /** The status badge as `(narrow, wide)`: with a truthy elapsed time the
      narrow layout shows the abbreviated label and the minute, the wide one
      the full label and the minute; otherwise both show the label alone. */
  function StatusBadge(status: string, elapsed: Option<int>): (badge: (string, string))
    ensures elapsed.None? || elapsed == Some(0) ==> badge == (status, status)
    ensures elapsed.Some? && elapsed.value != 0 ==>
      badge.0 == ShortStatus(status) + " " + IntToString(elapsed.value) + "'" &&
      badge.1 == status + " " + IntToString(elapsed.value) + "'"
    ensures |badge.0| <= |badge.1|
  {
    if elapsed.Some? && elapsed.value != 0 then
      var minute := " " + IntToString(elapsed.value) + "'";
      (ShortStatus(status) + minute, status + minute)
    else (status, status)
  }

  /** Minute 0 is falsy: the badge hides it, while the detail view shows
      `0' min`. */
  lemma ZeroMinuteHidden(status: string)
    ensures StatusBadge(status, Some(0)) == StatusBadge(status, None)
    ensures MatchDetails.StatusRows(status, "", Some(0), None, None).elapsed == "0' min"
  {
    assert IntToString(0) == "0";
  }

  /** Which score cells are bold: a side is bold when both scores are
      known and its score is strictly the larger. */
  function ScoreEmphasis(home: Option<int>, away: Option<int>): (bold: (bool, bool))
    ensures bold.0 <==> home.Some? && away.Some? && home.value > away.value
    ensures bold.1 <==> home.Some? && away.Some? && away.value > home.value
    ensures !(bold.0 && bold.1)
  {
    (home.Some? && away.Some? && home.value > away.value,
     home.Some? && away.Some? && away.value > home.value)
  }

  /** The bold side on the card is the side the detail view reports as the
      winner, and a draw or a missing score makes neither side bold. */
  lemma EmphasisIsWinner(home: Option<int>, away: Option<int>)
    ensures ScoreEmphasis(home, away).0 <==> MatchDetails.CalcResult(home, away, true) == MatchDetails.Win
    ensures ScoreEmphasis(home, away).1 <==> MatchDetails.CalcResult(home, away, false) == MatchDetails.Win
    ensures MatchDetails.CalcResult(home, away, true) in {MatchDetails.Draw, MatchDetails.NoResult} ==>
      !ScoreEmphasis(home, away).0 && !ScoreEmphasis(home, away).1
  {
  }
}
