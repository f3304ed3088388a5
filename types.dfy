/** The canonical match record every normaliser produces. The source's
    static types are erased at run time and the normalisers copy upstream
    values without coercion, so each field holds a JavaScript value; the
    sentinels are `Str("-")`, `Null` and `Undefined`. */
module Types {
  import opened Js

  datatype Team = Team(id: Json, name: Json, logo: Json)

  datatype League = League(id: Json, name: Json, logo: Json)

  /** `elapsed` is minutes or periods played, `Null` when not in play. */
  datatype Status = Status(long: Json, short: Json, elapsed: Json)

  datatype Score = Score(home: Json, away: Json)

  datatype Match = Match(
    id: Json,
    date: Json,
    season: Json,
    venue: Json,
    league: League,
    status: Status,
    home: Team,
    away: Team,
    score: Score)
}
