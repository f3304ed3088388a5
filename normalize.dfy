/** The two normalisers that turn one upstream record into the canonical
    `Match`: `normalizeFootball` for the v3 fixture schema and `normalizeV1`
    for the v1 "games" schemas. Both are total over the records they accept
    and never coerce a value; `yearOf` stands for `new Date(d).getFullYear()`. */
module Normalize {
  import opened Js
  import opened Types

  // ---------------------------------------------------------------------
  // v3 fixtures

  /** The objects `normalizeFootball` reads with plain `.` access; a null or
      undefined one makes the source throw a TypeError. */
  predicate FootballShaped(item: Json) {
    && !Nullish(item)
    && !Nullish(Get(item, "fixture"))
    && !Nullish(Get(Get(item, "fixture"), "status"))
    && !Nullish(Get(item, "league"))
    && !Nullish(Get(item, "teams"))
    && !Nullish(Get(Get(item, "teams"), "home"))
    && !Nullish(Get(Get(item, "teams"), "away"))
    && !Nullish(Get(item, "goals"))
  }

  /** Copies the fixture, league, team and goal fields unchanged; only the
      season, the venue and the elapsed time have fallbacks. */
  function NormalizeFootball(item: Json, yearOf: Json -> int): (m: Match)
    requires FootballShaped(item)
    ensures m.id == Get(Get(item, "fixture"), "id") && m.date == Get(Get(item, "fixture"), "date")
    ensures m.league == League(Get(Get(item, "league"), "id"), Get(Get(item, "league"), "name"), Get(Get(item, "league"), "logo"))
    ensures m.home == Team(Get(Get(Get(item, "teams"), "home"), "id"), Get(Get(Get(item, "teams"), "home"), "name"), Get(Get(Get(item, "teams"), "home"), "logo"))
    ensures m.away == Team(Get(Get(Get(item, "teams"), "away"), "id"), Get(Get(Get(item, "teams"), "away"), "name"), Get(Get(Get(item, "teams"), "away"), "logo"))
    ensures m.status.long == Get(Get(Get(item, "fixture"), "status"), "long")
    ensures m.status.short == Get(Get(Get(item, "fixture"), "status"), "short")
    ensures var e := Get(Get(Get(item, "fixture"), "status"), "elapsed");
      m.status.elapsed == if Nullish(e) then Null else e
    ensures m.score == Score(Get(Get(item, "goals"), "home"), Get(Get(item, "goals"), "away"))
    ensures var s := Get(Get(item, "league"), "season");
      m.season == if Nullish(s) then Num(yearOf(Get(Get(item, "fixture"), "date"))) else s
    ensures var v := Get(Get(Get(item, "fixture"), "venue"), "name");
      m.venue == if Nullish(v) then Undefined else v
  {
    var fixture := Get(item, "fixture");
    var league := Get(item, "league");
    var status := Get(fixture, "status");
    var home := Get(Get(item, "teams"), "home");
    var away := Get(Get(item, "teams"), "away");
    var goals := Get(item, "goals");
    Match(
      id := Get(fixture, "id"),
      date := Get(fixture, "date"),
      season := Coalesce(Get(league, "season"), Num(yearOf(Get(fixture, "date")))),
      venue := Coalesce(Get(Get(fixture, "venue"), "name"), Undefined),
      league := League(Get(league, "id"), Get(league, "name"), Get(league, "logo")),
      status := Status(Get(status, "long"), Get(status, "short"), Coalesce(Get(status, "elapsed"), Null)),
      home := Team(Get(home, "id"), Get(home, "name"), Get(home, "logo")),
      away := Team(Get(away, "id"), Get(away, "name"), Get(away, "logo")),
      score := Score(Get(goals, "home"), Get(goals, "away")))
  }

  // ---------------------------------------------------------------------
  // v1 games: one function per local of `normalizeV1`

  /** `teams`: `item.teams`, else `item.game.teams`, else `{}`. */
  function TeamsOf(item: Json): (t: Json)
    ensures !Nullish(t)
  {
    Coalesce(Get(item, "teams"), Coalesce(Get(Get(item, "game"), "teams"), EmptyObj))
  }

  /** `homeTeam`: `teams.home`, else `teams.localteam`, else `{}`. */
  function HomeTeamOf(item: Json): (t: Json)
    ensures !Nullish(t)
  {
    var teams := TeamsOf(item);
    Coalesce(Get(teams, "home"), Coalesce(Get(teams, "localteam"), EmptyObj))
  }

  /** `awayTeam`: `teams.away`, else `teams.visitors`, else `teams.visitorteam`, else `{}`. */
  function AwayTeamOf(item: Json): (t: Json)
    ensures !Nullish(t)
  {
    var teams := TeamsOf(item);
    Coalesce(Get(teams, "away"), Coalesce(Get(teams, "visitors"), Coalesce(Get(teams, "visitorteam"), EmptyObj)))
  }

  /** `scores`: `item.scores`, else `item.score`, else `item.goals`, else `{}`. */
  function ScoresOf(item: Json): (s: Json)
    ensures !Nullish(s)
  {
    Coalesce(Get(item, "scores"), Coalesce(Get(item, "score"), Coalesce(Get(item, "goals"), EmptyObj)))
  }

  /** One side's score: `scores[side].total` when present, else `scores[side]`
      when that is a number, else null; 0 only when the record says 0. */
  function ScoreSide(scores: Json, side: string): (r: Json)
    ensures !Nullish(Get(Get(scores, side), "total")) ==> r == Get(Get(scores, side), "total")
    ensures Nullish(Get(Get(scores, side), "total")) && Get(scores, side).Num? ==> r == Get(scores, side)
    ensures Nullish(Get(Get(scores, side), "total")) && !Get(scores, side).Num? ==> r == Null
    ensures r == Num(0) ==> Get(Get(scores, side), "total") == Num(0) || Get(scores, side) == Num(0)
    ensures r != Undefined
  {
    var s := Get(scores, side);
    Coalesce(Get(s, "total"), if s.Num? then s else Null)
  }

  /** `st`: `item.status`, else `item.game.status`, else `item.time`, else `{}`. */
  function StatusSourceOf(item: Json): (st: Json)
    ensures !Nullish(st)
  {
    Coalesce(Get(item, "status"), Coalesce(Get(Get(item, "game"), "status"), Coalesce(Get(item, "time"), EmptyObj)))
  }

  /** `dateValue`: `item.date`, else `item.game.date`, else `""`. */
  function DateOf(item: Json): (d: Json)
    ensures !Nullish(d)
  {
    Coalesce(Get(item, "date"), Coalesce(Get(Get(item, "game"), "date"), Str("")))
  }

  /** The venue candidate: `item.venue`, else `item.game.venue`, else `item.game.arena`. */
  function VenueSourceOf(item: Json): Json {
    Coalesce(Get(item, "venue"), Coalesce(Get(Get(item, "game"), "venue"), Get(Get(item, "game"), "arena")))
  }

  /** `venueValue`, the immediately invoked function of the source. */
  function VenueOf(item: Json): (v: Json)
    ensures v.Undefined? || v.Str?
  {
    var venue := VenueSourceOf(item);
    if Falsy(venue) then Undefined
    else if venue.Str? then venue
    else if Get(venue, "name").Str? then Get(venue, "name")
    else if Get(venue, "fullName").Str? then Get(venue, "fullName")
    else Undefined
  }

  /** `season`: `item.season`, else `item.league.season`, else the year of
      the date when the date is truthy, else undefined. */
  function SeasonOf(item: Json, yearOf: Json -> int): (s: Json)
    ensures s != Null
    ensures s == Undefined <==>
      Nullish(Get(item, "season")) && Nullish(Get(Get(item, "league"), "season")) && Falsy(DateOf(item))
  {
    var date := DateOf(item);
    Coalesce(Get(item, "season"), Coalesce(Get(Get(item, "league"), "season"),
      if !Falsy(date) then Num(yearOf(date)) else Undefined))
  }

  predicate TeamComplete(t: Team) {
    !Nullish(t.id) && !Nullish(t.name) && t.logo != Undefined
  }

  /** A team whose missing id, name and logo become `"-"`, the given
      default name and null; present values are kept as they are. */
  function TeamFrom(raw: Json, defaultName: string): (t: Team)
    ensures !Nullish(Get(raw, "id")) ==> t.id == Get(raw, "id")
    ensures Nullish(Get(raw, "id")) ==> t.id == Str("-")
    ensures !Nullish(Get(raw, "name")) ==> t.name == Get(raw, "name")
    ensures Nullish(Get(raw, "name")) ==> t.name == Str(defaultName)
    ensures !Nullish(Get(raw, "logo")) ==> t.logo == Get(raw, "logo")
    ensures Nullish(Get(raw, "logo")) ==> t.logo == Null
    ensures TeamComplete(t)
  {
    Team(Coalesce(Get(raw, "id"), Str("-")), Coalesce(Get(raw, "name"), Str(defaultName)), Coalesce(Get(raw, "logo"), Null))
  }

  /** The league, whose missing id, name and logo become `"-"`,
      `"Unknown League"` and null; present values are kept as they are. */
  function LeagueFrom(item: Json): (l: League)
    ensures var league := Get(item, "league");
      && (if Nullish(Get(league, "id")) then l.id == Str("-") else l.id == Get(league, "id"))
      && (if Nullish(Get(league, "name")) then l.name == Str("Unknown League") else l.name == Get(league, "name"))
      && (if Nullish(Get(league, "logo")) then l.logo == Null else l.logo == Get(league, "logo"))
  {
    var league := Get(item, "league");
    League(Coalesce(Get(league, "id"), Str("-")), Coalesce(Get(league, "name"), Str("Unknown League")), Coalesce(Get(league, "logo"), Null))
  }

  /** The status: `long` from `long`, `current`, `"Unknown"`; `short` from
      `short`, `""`; `elapsed` from `elapsed`, `minute`, null. */
  function StatusFrom(st: Json): (s: Status)
    ensures !Nullish(s.long) && !Nullish(s.short) && s.elapsed != Undefined
  {
    Status(
      Coalesce(Get(st, "long"), Coalesce(Get(st, "current"), Str("Unknown"))),
      Coalesce(Get(st, "short"), Str("")),
      Coalesce(Get(st, "elapsed"), Coalesce(Get(st, "minute"), Null)))
  }

  /** Every field of the record is present: sentinels instead of absence,
      null (never undefined) for the nullable ones, and a venue that is a
      string or left out. The season alone may be undefined. */
  predicate Complete(m: Match) {
    && !Nullish(m.id) && !Nullish(m.date)
    && (m.venue.Undefined? || m.venue.Str?)
    && !Nullish(m.league.id) && !Nullish(m.league.name) && m.league.logo != Undefined
    && !Nullish(m.status.long) && !Nullish(m.status.short) && m.status.elapsed != Undefined
    && TeamComplete(m.home) && TeamComplete(m.away)
    && m.score.home != Undefined && m.score.away != Undefined
  }

  /** `normalizeV1`: never leaves a field of the record missing. The record
      itself must not be null or undefined (`item.teams` would throw). */
  function NormalizeV1(item: Json, yearOf: Json -> int): (m: Match)
    requires !Nullish(item)
    ensures Complete(m)
  {
    var scores := ScoresOf(item);
    Match(
      id := Coalesce(Get(item, "id"), Coalesce(Get(Get(item, "game"), "id"), Str("-"))),
      date := DateOf(item),
      season := SeasonOf(item, yearOf),
      venue := VenueOf(item),
      league := LeagueFrom(item),
      status := StatusFrom(StatusSourceOf(item)),
      home := TeamFrom(HomeTeamOf(item), "Home"),
      away := TeamFrom(AwayTeamOf(item), "Away"),
      score := Score(ScoreSide(scores, "home"), ScoreSide(scores, "away")))
  }

  // ---------------------------------------------------------------------
  // Resolution orders of normalizeV1, stated as "first present candidate"

  /** Teams come from `teams` then `game.teams`; the home side from `home`
      then `localteam`; the away side from `away`, `visitors`, `visitorteam`. */
  lemma TeamResolutionOrder(item: Json)
    ensures TeamsOf(item) == FirstPresent([Get(item, "teams"), Get(Get(item, "game"), "teams")], EmptyObj)
    ensures var teams := TeamsOf(item);
      HomeTeamOf(item) == FirstPresent([Get(teams, "home"), Get(teams, "localteam")], EmptyObj)
    ensures var teams := TeamsOf(item);
      AwayTeamOf(item) == FirstPresent([Get(teams, "away"), Get(teams, "visitors"), Get(teams, "visitorteam")], EmptyObj)
  {
    var teams := TeamsOf(item);
    FirstPresentTwo(Get(item, "teams"), Get(Get(item, "game"), "teams"), EmptyObj);
    FirstPresentTwo(Get(teams, "home"), Get(teams, "localteam"), EmptyObj);
    FirstPresentThree(Get(teams, "away"), Get(teams, "visitors"), Get(teams, "visitorteam"), EmptyObj);
  }

  /** The score container is `scores`, then `score`, then `goals`, then `{}`. */
  lemma ScoreContainerOrder(item: Json)
    ensures ScoresOf(item) == FirstPresent([Get(item, "scores"), Get(item, "score"), Get(item, "goals")], EmptyObj)
  {
    FirstPresentThree(Get(item, "scores"), Get(item, "score"), Get(item, "goals"), EmptyObj);
  }

  /** The status comes from `status`, `game.status`, `time`, `{}`; its long
      label from `long`, `current`, `"Unknown"`; its code from `short`, `""`;
      its elapsed time from `elapsed`, `minute`, null. */
  lemma StatusResolutionOrder(item: Json)
    ensures StatusSourceOf(item) == FirstPresent([Get(item, "status"), Get(Get(item, "game"), "status"), Get(item, "time")], EmptyObj)
    ensures var st := StatusSourceOf(item);
      && StatusFrom(st).long == FirstPresent([Get(st, "long"), Get(st, "current")], Str("Unknown"))
      && StatusFrom(st).short == FirstPresent([Get(st, "short")], Str(""))
      && StatusFrom(st).elapsed == FirstPresent([Get(st, "elapsed"), Get(st, "minute")], Null)
  {
    var st := StatusSourceOf(item);
    FirstPresentThree(Get(item, "status"), Get(Get(item, "game"), "status"), Get(item, "time"), EmptyObj);
    FirstPresentTwo(Get(st, "long"), Get(st, "current"), Str("Unknown"));
    FirstPresentOne(Get(st, "short"), Str(""));
    FirstPresentTwo(Get(st, "elapsed"), Get(st, "minute"), Null);
  }

  /** The id is `id`, `game.id`, `"-"`; the date `date`, `game.date`, `""`;
      the season `season`, `league.season`, then the year of a truthy date. */
  lemma IdentityResolutionOrder(item: Json, yearOf: Json -> int)
    requires !Nullish(item)
    ensures NormalizeV1(item, yearOf).id == FirstPresent([Get(item, "id"), Get(Get(item, "game"), "id")], Str("-"))
    ensures DateOf(item) == FirstPresent([Get(item, "date"), Get(Get(item, "game"), "date")], Str(""))
    ensures SeasonOf(item, yearOf) == FirstPresent([Get(item, "season"), Get(Get(item, "league"), "season")],
                                                   if Falsy(DateOf(item)) then Undefined else Num(yearOf(DateOf(item))))
  {
    var date := DateOf(item);
    FirstPresentTwo(Get(item, "id"), Get(Get(item, "game"), "id"), Str("-"));
    FirstPresentTwo(Get(item, "date"), Get(Get(item, "game"), "date"), Str(""));
    FirstPresentTwo(Get(item, "season"), Get(Get(item, "league"), "season"), if Falsy(date) then Undefined else Num(yearOf(date)));
  }

  /** The venue: the first present of `venue`, `game.venue`, `game.arena`;
      falsy gives undefined, a string is kept, an object gives its string
      `name`, else its string `fullName`, else undefined. */
  lemma VenueResolution(item: Json)
    ensures var raw := FirstPresent([Get(item, "venue"), Get(Get(item, "game"), "venue"), Get(Get(item, "game"), "arena")], Undefined);
      var v := VenueOf(item);
      && (Falsy(raw) ==> v == Undefined)
      && (raw.Str? && raw.s != "" ==> v == raw)
      && (!Falsy(raw) && !raw.Str? && Get(raw, "name").Str? ==> v == Get(raw, "name"))
      && (!Falsy(raw) && !raw.Str? && !Get(raw, "name").Str? && Get(raw, "fullName").Str? ==> v == Get(raw, "fullName"))
      && (!Falsy(raw) && !raw.Str? && !Get(raw, "name").Str? && !Get(raw, "fullName").Str? ==> v == Undefined)
  {
    FirstPresentThree(Get(item, "venue"), Get(Get(item, "game"), "venue"), Get(Get(item, "game"), "arena"), Undefined);
  }

  // ---------------------------------------------------------------------
  // Properties of normalizeV1

  /** A side's score is the same whether the record writes `{total: n}` or
      the bare number `n`. */
  lemma ScoreTotalOrBare(item: Json, yearOf: Json -> int, side: string, n: int)
    requires !Nullish(item) && (side == "home" || side == "away")
    requires Get(Get(ScoresOf(item), side), "total") == Num(n) || Get(ScoresOf(item), side) == Num(n)
    ensures var m := NormalizeV1(item, yearOf);
      (if side == "home" then m.score.home else m.score.away) == Num(n)
  {
  }

  /** A side's score is null, never 0, when the record has neither a total
      nor a bare number for it. */
  lemma MissingScoreIsNull(item: Json, yearOf: Json -> int, side: string)
    requires !Nullish(item) && (side == "home" || side == "away")
    requires Nullish(Get(Get(ScoresOf(item), side), "total")) && !Get(ScoresOf(item), side).Num?
    ensures var m := NormalizeV1(item, yearOf);
      (if side == "home" then m.score.home else m.score.away) == Null
  {
  }

  /** A side's score is the one-link chain `total ?? fallback`, where the
      fallback is the bare number or null. */
  lemma ScoreSideResolution(scores: Json, side: string)
    ensures var s := Get(scores, side);
      ScoreSide(scores, side) == FirstPresent([Get(s, "total")], if s.Num? then s else Null)
  {
    var s := Get(scores, side);
    FirstPresentOne(Get(s, "total"), if s.Num? then s else Null);
  }

  /** The flat v1 record `{id, teams, status, date}`. */
  function FlatGame(id: Json, teams: Json, status: Json, date: Json): Json {
    Obj(map["id" := id, "teams" := teams, "status" := status, "date" := date])
  }

  /** The same record wrapped as `{game: {...}}`. */
  function WrappedGame(id: Json, teams: Json, status: Json, date: Json): Json {
    Obj(map["game" := FlatGame(id, teams, status, date)])
  }

  lemma WrapperSameTeams(id: Json, teams: Json, status: Json, date: Json)
    ensures var flat, wrapped := FlatGame(id, teams, status, date), WrappedGame(id, teams, status, date);
            HomeTeamOf(wrapped) == HomeTeamOf(flat) && AwayTeamOf(wrapped) == AwayTeamOf(flat)
  {
    var flat, wrapped := FlatGame(id, teams, status, date), WrappedGame(id, teams, status, date);
    assert Get(wrapped, "teams") == Undefined && Get(Get(wrapped, "game"), "teams") == teams;
    assert TeamsOf(wrapped) == TeamsOf(flat);
  }

  lemma WrapperSameStatusAndDate(id: Json, teams: Json, status: Json, date: Json, yearOf: Json -> int)
    ensures var flat, wrapped := FlatGame(id, teams, status, date), WrappedGame(id, teams, status, date);
            && StatusSourceOf(wrapped) == StatusSourceOf(flat)
            && DateOf(wrapped) == DateOf(flat)
            && SeasonOf(wrapped, yearOf) == SeasonOf(flat, yearOf)
  {
    var flat, wrapped := FlatGame(id, teams, status, date), WrappedGame(id, teams, status, date);
    assert Get(wrapped, "status") == Undefined && Get(Get(wrapped, "game"), "status") == status;
    assert Get(wrapped, "date") == Undefined && Get(Get(wrapped, "game"), "date") == date;
    assert Get(flat, "season") == Undefined == Get(wrapped, "season");
    assert Get(flat, "league") == Undefined == Get(wrapped, "league");
  }

  lemma WrapperSameRest(id: Json, teams: Json, status: Json, date: Json)
    ensures var flat, wrapped := FlatGame(id, teams, status, date), WrappedGame(id, teams, status, date);
            && Coalesce(Get(wrapped, "id"), Coalesce(Get(Get(wrapped, "game"), "id"), Str("-")))
               == Coalesce(Get(flat, "id"), Coalesce(Get(Get(flat, "game"), "id"), Str("-")))
            && VenueOf(wrapped) == VenueOf(flat)
            && ScoresOf(wrapped) == ScoresOf(flat)
            && LeagueFrom(wrapped) == LeagueFrom(flat)
  {
    var flat, wrapped := FlatGame(id, teams, status, date), WrappedGame(id, teams, status, date);
    assert Get(Get(wrapped, "game"), "id") == id && Get(wrapped, "id") == Undefined;
    assert VenueSourceOf(wrapped) == Undefined == VenueSourceOf(flat);
    assert Get(flat, "scores") == Get(flat, "score") == Get(flat, "goals") == Undefined;
    assert ScoresOf(wrapped) == EmptyObj == ScoresOf(flat);
    assert Get(flat, "league") == Undefined == Get(wrapped, "league");
  }

  /** A record wrapped as `{game: {id, teams, status, date}}` normalises
      exactly like the flat `{id, teams, status, date}`. */
  lemma GameWrapperIsTransparent(id: Json, teams: Json, status: Json, date: Json, yearOf: Json -> int)
    ensures NormalizeV1(WrappedGame(id, teams, status, date), yearOf) == NormalizeV1(FlatGame(id, teams, status, date), yearOf)
  {
    WrapperSameTeams(id, teams, status, date);
    WrapperSameStatusAndDate(id, teams, status, date, yearOf);
    WrapperSameRest(id, teams, status, date);
  }

  /** `localteam`/`visitorteam` give the same home and away teams as
      `home`/`away`. */
  lemma LegacyTeamNamesAgree(fields: map<string, Json>, home: Json, away: Json, yearOf: Json -> int)
    requires !Nullish(home) && !Nullish(away)
    ensures var legacy := Obj(fields["teams" := Obj(map["localteam" := home, "visitorteam" := away])]);
            var modern := Obj(fields["teams" := Obj(map["home" := home, "away" := away])]);
            && NormalizeV1(legacy, yearOf).home == NormalizeV1(modern, yearOf).home
            && NormalizeV1(legacy, yearOf).away == NormalizeV1(modern, yearOf).away
  {
    var legacy := Obj(fields["teams" := Obj(map["localteam" := home, "visitorteam" := away])]);
    var modern := Obj(fields["teams" := Obj(map["home" := home, "away" := away])]);
    assert TeamsOf(legacy) == Obj(map["localteam" := home, "visitorteam" := away]);
    assert TeamsOf(modern) == Obj(map["home" := home, "away" := away]);
    assert HomeTeamOf(legacy) == home == HomeTeamOf(modern);
    assert AwayTeamOf(legacy) == away == AwayTeamOf(modern);
  }

  /** The empty record normalises to the all-sentinel match. */
  lemma EmptyRecordDefaults(yearOf: Json -> int)
    ensures NormalizeV1(EmptyObj, yearOf) == Match(
      Str("-"), Str(""), Undefined, Undefined,
      League(Str("-"), Str("Unknown League"), Null),
      Status(Str("Unknown"), Str(""), Null),
      Team(Str("-"), Str("Home"), Null), Team(Str("-"), Str("Away"), Null),
      Score(Null, Null))
  {
    assert TeamsOf(EmptyObj) == EmptyObj && HomeTeamOf(EmptyObj) == EmptyObj && AwayTeamOf(EmptyObj) == EmptyObj;
    assert ScoresOf(EmptyObj) == EmptyObj && StatusSourceOf(EmptyObj) == EmptyObj;
    assert DateOf(EmptyObj) == Str("") && SeasonOf(EmptyObj, yearOf) == Undefined;
    assert VenueOf(EmptyObj) == Undefined;
  }

  /** The year of the date is used as season only when no season is given
      and the date is truthy. */
  lemma SeasonYearOnlyFromDate(item: Json, yearOf: Json -> int)
    requires Nullish(Get(item, "season")) && Nullish(Get(Get(item, "league"), "season"))
    ensures Falsy(DateOf(item)) ==> SeasonOf(item, yearOf) == Undefined
    ensures !Falsy(DateOf(item)) ==> SeasonOf(item, yearOf) == Num(yearOf(DateOf(item)))
  {
  }

  /** A present venue candidate stops the chain even when it is falsy: an
      empty `venue` hides `game.venue`. */
  lemma EmptyVenueHidesGameVenue(name: string)
    ensures VenueOf(Obj(map["venue" := Str(""), "game" := Obj(map["venue" := Str(name)])])) == Undefined
  {
  }
}
