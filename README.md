# Live-sports match normalisation and favourites, in Dafny

ReactFootballProject is a Next.js front end for live sports scores. Its
API route fetches the live football fixtures from one upstream provider
and returns the payload unchanged. The UI reads the records of that payload
directly as `Match` values and shows each one as a card and as a detail
page. Signed-in users can keep a list of favourite matches, which is stored
in Supabase.

The library also defines two normalisers, a sport registry and a payload
extractor. The normalisers turn an upstream record of either schema family
into the canonical `Match`. The registry has one entry per sport, and the
extractor finds the list of records in a payload. None of the application's
pages or routes calls the normalisers, the extractor or the registry's
entries; of the modelled library code, only `resolveSport` is called, by
the match-detail page. The model covers the rest as the library defines it.

This project models the logic of that application and proves properties
about it:

- `normalize.dfy` (module `Normalize`): the two normalisers.
  `normalizeFootball` handles the v3 fixture schema and `normalizeV1` the
  v1 "games" schemas. The model covers every `??` alias chain, every
  sentinel default and the venue-resolution function.
- `sports_config.dfy` (module `SportsConfig`): the sport registry
  `SPORT_CONFIG`, the fail-open `resolveSport` and `extractList`, which
  finds the list of records in a payload.
- `match_card.dfy` (module `MatchCard`): the three status-code sets,
  `resolveStatusVariant`, the half-time abbreviation, the status badge and
  the condition that puts a score in bold.
- `match_details.dfy` (module `MatchDetails`): `calcResult`, the season
  shown, the status rows and the six-entry head-to-head slice with its
  "could not load" note.
- `league_selector.dfy` (module `LeagueSelector`): the `leagues` list. The
  source resolves each record's league id and name, puts the pairs through
  a JavaScript `Map`, takes `values()` and drops entries whose id is null.
  The `Map` is modelled as an association list that keeps insertion order.
- `favorites_context.dfy` (module `FavoritesContext`): `makeKey`,
  `isFavorite`, the mapping from stored rows to favourite items, and the
  provider's `favorites`/`auth` state. That state is a class, and its
  `refreshSession`, `refreshFavorites` and `signOut` transitions are
  methods. Each answer from the Supabase client is a parameter of the
  method.
- `js.dfy` (module `Js`) and `types.dfy` (module `Types`): supporting
  definitions.
  - Untyped JSON is a `Json` datatype that includes `undefined` for a
    missing property.
  - `Get` models optional-chaining property access and `Coalesce` models
    `??`.
  - `FirstPresent` is an independent "first present candidate, else the
    fallback" definition. Every `??` chain of two or more links is proved
    equal to it, and so is the score chain `total ?? (number or null)`.
    Each single `??` with a fixed fallback is stated as a case split on
    whether its value is null or undefined.
  - `JsString` models `String(v)`.
  - `Types` holds the canonical `Match` record.

`new Date(d).getFullYear()` appears in the model as a function parameter
`yearOf`.

Behaviour of the code that the model keeps as it is:

- `extractList` takes the first candidate that is not null or undefined. If
  that candidate is not an array, the result is empty and later candidates
  are not tried, even when one of them is an array.
  `SportsConfig.ExtractListNoFallThrough` shows this.
- The five v1 sports leave `supportsLast` and `supportsH2H` unset, and no
  code gives them a default, so the model keeps them as `None`.
- `normalizeFootball` reads `item.fixture.status`, `item.league`,
  `item.teams.home`, `item.teams.away` and `item.goals` with plain `.`
  access, so it throws a TypeError when any of them is missing. The model
  states those requirements as a precondition (`Normalize.FootballShaped`).
  `normalizeV1` only needs a record that is not null or undefined.
- The API route only proxies the live feed: the code has no query
  dispatcher (match lookup, head-to-head, team retry, league filter), and
  none is modelled.

## Model

| member | source | states |
|---|---|---|
| Js.FirstPresent | src/lib/normalize.ts:41-45 | the value of a `??` chain is its first candidate that is neither null nor undefined, and the fallback when there is none; a present fallback gives a present result |
| Normalize.NormalizeFootball | src/lib/normalize.ts:3-38 | ids, names, logos, status long/short and goals are copied without coercion; season is `league.season`, else the year of `fixture.date`; venue is `fixture.venue.name`, else undefined; a nullish elapsed becomes null; the fixture, status, league, teams and goals objects must be present |
| Normalize.TeamsOf | src/lib/normalize.ts:41 | the teams object is never null or undefined (`{}` at worst); the chain is `TeamResolutionOrder` |
| Normalize.HomeTeamOf | src/lib/normalize.ts:42 | the home team object is never null or undefined (`{}` at worst); the chain is `TeamResolutionOrder` |
| Normalize.AwayTeamOf | src/lib/normalize.ts:43 | the away team object is never null or undefined (`{}` at worst); the chain is `TeamResolutionOrder` |
| Normalize.ScoresOf | src/lib/normalize.ts:45 | the score container is never null or undefined (`{}` at worst); the chain is `ScoreContainerOrder` |
| Normalize.ScoreSide | src/lib/normalize.ts:47-51 | a side's score is `total` when present, else the bare number, else null; it is never undefined and is 0 only when the record says 0 |
| Normalize.ScoreSideResolution | src/lib/normalize.ts:47-51 | a side's score is the first present of `[total]` with the bare number, else null, as fallback |
| Normalize.StatusSourceOf | src/lib/normalize.ts:53 | the status source is never null or undefined (`{}` at worst); the chain is `StatusResolutionOrder` |
| Normalize.DateOf | src/lib/normalize.ts:55 | the date is never null or undefined (`""` at worst) |
| Normalize.SeasonOf | src/lib/normalize.ts:69-72 | the season is never null, and undefined exactly when neither `season` nor `league.season` is present and the date is falsy; the chain is `IdentityResolutionOrder` |
| Normalize.VenueOf | src/lib/normalize.ts:57-64 | the venue is always a string or undefined |
| Normalize.TeamFrom | src/lib/normalize.ts:87-97 | a missing team id, name or logo becomes `"-"`, `"Home"`/`"Away"` or null; present values are kept |
| Normalize.LeagueFrom | src/lib/normalize.ts:75-79 | a missing league id, name or logo becomes `"-"`, `"Unknown League"` or null; present values are kept |
| Normalize.StatusFrom | src/lib/normalize.ts:81-85 | long and short are never nullish and elapsed is never undefined |
| Normalize.NormalizeV1 | src/lib/normalize.ts:40-104 | every field of the result is present: sentinels instead of absence, null for a missing nullable field, a venue that is a string or undefined; only the season may be undefined |
| Normalize.TeamResolutionOrder | src/lib/normalize.ts:41-43 | teams: `teams`, then `game.teams`; home: `home`, then `localteam`; away: `away`, then `visitors`, then `visitorteam`; the first present value wins |
| Normalize.ScoreContainerOrder | src/lib/normalize.ts:45 | the score container is `scores`, then `score`, then `goals`, then `{}` |
| Normalize.StatusResolutionOrder | src/lib/normalize.ts:53-85 | the status source is `status`, `game.status`, `time`, `{}`; long is `long`, `current`, `"Unknown"`; short is `short`, `""`; elapsed is `elapsed`, `minute`, null |
| Normalize.IdentityResolutionOrder | src/lib/normalize.ts:55-72 | id is `id`, `game.id`, `"-"`; date is `date`, `game.date`, `""`; season is `season`, `league.season`, then the year of the date only when the date is truthy |
| Normalize.VenueResolution | src/lib/normalize.ts:57-64 | of `venue`, `game.venue`, `game.arena` the first present is taken; falsy gives undefined, a non-empty string is kept, an object gives its string `name`, else its string `fullName`, else undefined |
| Normalize.ScoreTotalOrBare | src/lib/normalize.ts:47-51 | `{total: n}` and the bare number `n` give the same score for either side, 0 included |
| Normalize.MissingScoreIsNull | src/lib/normalize.ts:47-51 | for either side, a side with neither a total nor a number scores null, never 0 |
| Normalize.GameWrapperIsTransparent | src/lib/normalize.ts:41-67 | a record wrapped as `{game: {id, teams, status, date}}` normalises exactly like the flat record |
| Normalize.LegacyTeamNamesAgree | src/lib/normalize.ts:41-43 | `localteam`/`visitorteam` give the same home and away teams as `home`/`away` |
| Normalize.EmptyRecordDefaults | src/lib/normalize.ts:66-103 | `{}` normalises to the match made only of sentinels and nulls, with no season and no venue |
| Normalize.SeasonYearOnlyFromDate | src/lib/normalize.ts:69-72 | without a season the year of the date is used only for a truthy date; otherwise the season is undefined |
| Normalize.EmptyVenueHidesGameVenue | src/lib/normalize.ts:58-59 | a present but empty `venue` stops the chain: `game.venue` is not consulted and the venue is undefined |
| SportsConfig.SportConfigs | src/lib/sportsConfig.ts:19-46 | the registry, specified by `RegistryShape` |
| SportsConfig.RegistryShape | src/lib/sportsConfig.ts:19-46 | exactly six sports are registered; only football uses the v3 normaliser and sets `supportsLast`/`supportsH2H`; the other five leave both unset |
| SportsConfig.NormalizeFor | src/lib/sportsConfig.ts:19-46 | a v1 sport always yields a complete match; football copies the goals unchanged |
| SportsConfig.ResolveSport | src/lib/sportsConfig.ts:48-55 | a null, undefined or empty key gives football; a key comes back unchanged exactly when it is registered; any other key gives football |
| SportsConfig.ResolveSportIdempotent | src/lib/sportsConfig.ts:48-55 | resolving a resolved key changes nothing |
| SportsConfig.ExtractList | src/lib/sportsConfig.ts:57-66 | total for every payload, null included; if the first present of `response.games`, `games`, `response`, `fixtures` is an array, that array is the result; otherwise, and when none is present, the result is empty |
| SportsConfig.ExtractListShapes | src/lib/sportsConfig.ts:58-65 | `{response: xs}`, `{response: {games: xs}}`, `{games: xs}` and `{fixtures: xs}` each give `xs` back |
| SportsConfig.ExtractListNoFallThrough | src/lib/sportsConfig.ts:58-65 | a present non-array `response` hides a later `fixtures` array |
| MatchCard.CodeSetsDisjoint | src/app/components/MatchCard.tsx:12-41 | the live, finished and scheduled code sets are pairwise disjoint |
| MatchCard.ResolveStatusVariant | src/app/components/MatchCard.tsx:69-83 | live exactly when a live code or phrase matches; finished only with a finished signal; scheduled only with a scheduled signal and no finished one; default exactly when nothing matches |
| MatchCard.CodeDecidesVariant | src/app/components/MatchCard.tsx:70-82 | when the long label holds none of the six phrases, each variant is chosen exactly when the code is in its set, and default exactly when the code is in none |
| MatchCard.StatusCodeSource | src/app/components/MatchCard.tsx:70 | the code is the upper-cased short label, or the upper-cased long label when the short one is empty |
| MatchCard.LowerCaseCodeRecognised | src/app/components/MatchCard.tsx:70-80 | `ft` is finished and a long `ns` with an empty short code is scheduled |
| MatchCard.LivePhraseOverridesCode | src/app/components/MatchCard.tsx:73-75 | the long label "Live" makes a match live even with the code `FT` |
| MatchCard.ShortStatus | src/app/components/MatchCard.tsx:103-106 | "Second Half" becomes "SH" and "First Half" becomes "FH"; every other label is kept and the result is never longer |
| MatchCard.StatusBadge | src/app/components/MatchCard.tsx:183-194 | with a truthy elapsed time the narrow badge shows the abbreviated label and the minute and the wide one the full label and the minute; without one, or at minute 0, both show the label alone |
| MatchCard.ZeroMinuteHidden | src/app/components/MatchCard.tsx:183 | minute 0 is hidden on the card although the detail view shows `0' min` |
| MatchCard.ScoreEmphasis | src/app/components/MatchCard.tsx:244-262 | a side is bold exactly when both scores are known and its score is strictly larger; never both |
| MatchCard.EmphasisIsWinner | src/app/components/MatchCard.tsx:244-262 | the bold side is the side whose detail-view result is a win; a draw or a missing score makes neither bold |
| MatchDetails.CalcResult | src/app/components/MatchDetails.tsx:74-89 | no result exactly when a score is missing; otherwise win, loss or draw exactly as this side's score is larger, smaller or equal |
| MatchDetails.ResultsComplementary | src/app/components/MatchDetails.tsx:92-105 | home win exactly when away loss and the reverse; draw on one side exactly when draw on the other; no result for both sides or neither |
| MatchDetails.SeasonShown | src/app/components/MatchDetails.tsx:50-56 | `String(season)` when the season is not null, undefined or `""`, else the year of the date |
| MatchDetails.ScoreCell | src/app/components/MatchDetails.tsx:70 | a score cell is `"-"` exactly for a missing score and holds no space |
| MatchDetails.ScoreCellInjective | src/app/components/MatchDetails.tsx:70 | distinct scores give distinct cells |
| MatchDetails.StatusRows | src/app/components/MatchDetails.tsx:60-72 | the long label; the short code or an em dash when it is empty; `N' min` when elapsed is known, else an em dash; the score row |
| MatchDetails.ScoreTextInjective | src/app/components/MatchDetails.tsx:70 | the `h : a` row tells every two score pairs apart, missing sides included |
| MatchDetails.ElapsedRowInjective | src/app/components/MatchDetails.tsx:63-67 | the elapsed row tells every two elapsed times apart |
| MatchDetails.HeadToHeadShown | src/app/components/MatchDetails.tsx:232 | at most six entries are shown, and they are a prefix of the list: all of it when it has six or fewer, else exactly six |
| MatchDetails.NoteExcludesHeadToHead | src/app/components/MatchDetails.tsx:222-264 | the "could not load" note and the head-to-head section never appear together; with the comparison hidden exactly one appears |
| LeagueSelector.LeagueIdOf | src/app/components/LeagueSelector.tsx:27-31 | a league id is never undefined |
| LeagueSelector.LeagueIdResolution | src/app/components/LeagueSelector.tsx:27-31 | the id is the first present of `league.id`, `league.league_id`, `league_id`, and null exactly when none is present |
| LeagueSelector.LeagueNameOf | src/app/components/LeagueSelector.tsx:33-37 | a league name is never null or undefined |
| LeagueSelector.LeagueNameResolution | src/app/components/LeagueSelector.tsx:33-37 | the name is the first present of `league.name`, `league.league_name`, `league_name`, else "Unknown League" |
| LeagueSelector.MapOf | src/app/components/LeagueSelector.tsx:25-44 | `new Map(pairs)` never has more entries than pairs; its contents are `MapOfSpec` |
| LeagueSelector.MapOfSpec | src/app/components/LeagueSelector.tsx:24-44 | `new Map(pairs)` holds each key once, every key of the pairs and no other, in order of first insertion, each with the value of the last pair for that key |
| LeagueSelector.DropNullIds | src/app/components/LeagueSelector.tsx:45 | the filter never lengthens the list; what it keeps is `DropNullIdsMembers` and `DropNullIdsKeepsOrder` |
| LeagueSelector.DropNullIdsMembers | src/app/components/LeagueSelector.tsx:45 | the filter keeps exactly the entries whose id is not null |
| LeagueSelector.DropNullIdsKeepsOrder | src/app/components/LeagueSelector.tsx:45 | the filter keeps the relative order of what it keeps |
| LeagueSelector.Pairs | src/app/components/LeagueSelector.tsx:26-43 | one `[leagueId, {id, name}]` pair per record, in record order |
| LeagueSelector.Leagues | src/app/components/LeagueSelector.tsx:24-45 | there are never more leagues than records; the list is `LeaguesSound`, `LeaguesComplete` and `LeaguesOrdered` |
| LeagueSelector.LeaguesSound | src/app/components/LeagueSelector.tsx:24-45 | no entry has a null id or an id that no record has, and each entry's name is that of the last record with its id |
| LeagueSelector.LeaguesComplete | src/app/components/LeagueSelector.tsx:24-45 | every record with a non-null league id has an entry with that id |
| LeagueSelector.LeaguesOrdered | src/app/components/LeagueSelector.tsx:24-44 | entries follow the first occurrence of their id among the records, so ids are pairwise distinct |
| LeagueSelector.LeaguesOf | src/app/components/LeagueSelector.tsx:21-45 | a missing response gives no leagues; an array response gives the league list of its records |
| LeagueSelector.MapOfSameKeyTwice | src/app/components/LeagueSelector.tsx:24-44 | setting one key twice leaves one entry holding the second value |
| LeagueSelector.SameLeagueCollapses | src/app/components/LeagueSelector.tsx:24-45 | two records of one league give one entry, named after the second record |
| Js.JsString | src/context/FavoritesContext.tsx:39 | `String(v)`: a string is itself, an integer its decimal form, an object `[object Object]`; `IntToStringInjective` gives distinct integers distinct strings |
| FavoritesContext.MakeKey | src/context/FavoritesContext.tsx:38-40 | the key is the sport's string, a colon, then the id's string |
| FavoritesContext.NumericAndStringIdsAgree | src/context/FavoritesContext.tsx:38-40 | a numeric id and its decimal string give the same key |
| FavoritesContext.MakeKeySplits | src/context/FavoritesContext.tsx:38-40 | for sports without a colon, equal keys mean the same sport and the same `String(id)` |
| FavoritesContext.SportKeysHaveNoColon | src/lib/sportsConfig.ts:4-10 | no registered sport key contains a colon |
| FavoritesContext.AnyHasKey | src/context/FavoritesContext.tsx:126 | `some` holds exactly when some item's key equals the given key |
| FavoritesContext.IndexFields | src/context/FavoritesContext.tsx:91 | spreading an array or a string copies element `i` under the key `"i"`, and every such key starts with a digit |
| FavoritesContext.SpreadFields | src/context/FavoritesContext.tsx:91 | spreading an object copies its fields; spreading anything else gives only keys that start with a digit |
| FavoritesContext.FavoriteItem | src/context/FavoritesContext.tsx:91 | an item is an object with `sport`; the payload's own `sport` wins over the row's; an object payload's fields are all copied unchanged |
| FavoritesContext.MappedRow | src/context/FavoritesContext.tsx:89-92 | `undefined` exactly for a falsy payload, else the favourite item |
| FavoritesContext.KeepTruthy | src/context/FavoritesContext.tsx:93 | `filter(Boolean)` keeps only truthy values, keeps every truthy value, and never lengthens the list |
| FavoritesContext.KeepTruthyOne | src/context/FavoritesContext.tsx:93 | on one value the filter keeps it exactly when it is truthy |
| FavoritesContext.KeepTruthyAppend | src/context/FavoritesContext.tsx:93 | the filter distributes over concatenation, so with `KeepTruthyOne` it keeps the truthy values in order and is fully determined |
| FavoritesContext.MapRows | src/context/FavoritesContext.tsx:88-93 | the mapping never gives more items than rows; its contents are `MapRowsAppend` and `MapRowsOne` |
| FavoritesContext.MapRowsAppend | src/context/FavoritesContext.tsx:88-93 | the mapping works row by row and keeps query order: joined rows give joined items |
| FavoritesContext.MapRowsOne | src/context/FavoritesContext.tsx:89-92 | a row gives its payload plus `sport`, or nothing when its payload is falsy |
| FavoritesContext.MapRowsItems | src/context/FavoritesContext.tsx:88-93 | every mapped item is an object carrying `sport`, and there are no more items than rows |
| FavoritesContext.FavoritesProvider.constructor | src/context/FavoritesContext.tsx:44-49 | the provider starts with no favourites and auth loading |
| FavoritesContext.FavoritesProvider.RefreshSession | src/context/FavoritesContext.tsx:52-65 | loading ends and favourites are untouched; without a client or without a session the user is signed out; otherwise the session (null becoming undefined) and its user's e-mail are stored |
| FavoritesContext.FavoritesProvider.RefreshFavorites | src/context/FavoritesContext.tsx:68-95 | favourites become empty without a client, without a session, on an error or without data, and the mapped rows otherwise; auth is untouched |
| FavoritesContext.FavoritesProvider.SignOut | src/context/FavoritesContext.tsx:116-121 | without a client nothing changes; otherwise the user is signed out, favourites are empty and nothing is a favourite |
| FavoritesContext.FavoritesProvider.IsFavorite | src/context/FavoritesContext.tsx:123-129 | true exactly when some stored item has the key of `(id, sport)`; false for an empty list |

## Left out

- `src/app/api/live/route.ts` is not part of this model. It is pure I/O: it reads environment variables, calls `fetch` and maps HTTP statuses, and it passes the upstream payload through unchanged.
- The Supabase client is not part of this model. The client, the session it reports, the rows a query returns and whether the query reported an error are all parameters.
- `FavoritesContext.FavoritesProvider.SignOut` assumes that `supabase.auth.signOut()` completes. If that call rejects, the source never resets the state, and the model does not capture that path.
- The async interleaving of the provider's transitions is not modelled. Each method is one completed transition. The mount effect and the auth-change listener, which call `refreshSession` and `refreshFavorites`, are left out, as are React re-renders.
- The `updateLeague` router push, SWR polling and refresh intervals are left out. They are client navigation and timers.
- JSX rendering and Tailwind class strings are left out. The bold condition and the rows' values are modelled; their markup is not.
- Date parsing and formatting are left out. `new Date(d).getFullYear()` is the parameter `yearOf`, and an unparsable date's `NaN` year is not distinguished. `toLocaleString`/`toLocaleDateString` are not modelled.
- `buildDetailHref` in `MatchCard.tsx`, with its `encodeURIComponent`/`JSON.stringify`, is left out. These are foreign string encoders.
- `MatchCard.ResolveStatusVariant`: `toUpperCase`/`toLowerCase` are modelled for ASCII letters only. Unicode case mapping is not modelled.
- Numbers are integers. Floating-point scores, `NaN` and the string form of non-integral numbers are not modelled.
- `Js.IntToString` renders every integer in plain decimal. JavaScript's `String(n)` does so only for |n| < 1e21 (`String(1e21)` is `"1e+21"`), and integers beyond 2^53 are not exact in JavaScript. `FavoritesContext.NumericAndStringIdsAgree`, `FavoritesContext.MakeKey`, `FavoritesContext.MakeKeySplits`, `MatchDetails.SeasonShown`, `MatchDetails.ScoreCell`, `MatchDetails.StatusRows` and `MatchCard.StatusBadge` hold for JavaScript only within those bounds.
- `MatchCard.ResolveStatusVariant`, `MatchCard.StatusBadge`, `MatchCard.ScoreEmphasis`, `MatchDetails.CalcResult` and `MatchDetails.StatusRows` take the types the `Match` interface declares: string labels, and `number | null` scores and elapsed times. The normalisers copy values without coercion, so a record can carry other values into these fields. A non-string long label makes `toLowerCase` throw, and string scores compare as text. Those inputs are not modelled.
- `LeagueSelector.MapOfSpec`: `Map` keys are compared structurally. JavaScript compares object-valued keys by reference, so two equal object ids would stay separate in the source.
- `LeagueSelector.LeaguesOf` requires the response to be missing or an array. The source calls `.map` on whatever `data?.response` holds, so any other present value throws.
- `Normalize.NormalizeFootball` requires the objects it reads with plain `.` access to be present. The source throws a TypeError without them.
- `Js.Get` models only named properties and `length`. Index access on arrays is not used by the modelled code.
- `Normalize.LegacyTeamNamesAgree` states only that the home and away teams agree, not that the whole match does. No other field of `normalizeV1` reads `teams`.
