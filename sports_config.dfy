/** The sport registry (`SPORT_CONFIG`), the fail-open key resolver and the
    extractor that finds the list of raw records in an upstream payload. */
module SportsConfig {
  import opened Js
  import opened Types
  import Normalize

  /** Which normaliser a sport uses: `normalizeFootball` or `normalizeV1`. */
  datatype Schema = FootballSchema | V1Schema

  /** An unset capability flag is `None`. */
  datatype SportConfig = SportConfig(
    endpoint: string,
    normalize: Schema,
    supportsLast: Option<bool>,
    supportsH2H: Option<bool>)

  const SportConfigs: map<string, SportConfig> := map[
    "football" := SportConfig("https://v3.football.api-sports.io/fixtures", FootballSchema, Some(true), Some(true)),
    "nba" := SportConfig("https://v1.basketball.api-sports.io/games", V1Schema, None, None),
    "mlb" := SportConfig("https://v1.baseball.api-sports.io/games", V1Schema, None, None),
    "nfl" := SportConfig("https://v1.american-football.api-sports.io/games", V1Schema, None, None),
    "hockey" := SportConfig("https://v1.hockey.api-sports.io/games", V1Schema, None, None),
    "handball" := SportConfig("https://v1.handball.api-sports.io/games", V1Schema, None, None)
  ]

  /** `SportKey`: exactly the keys the registry has. */
  type SportKey = k: string | k in SportConfigs witness "football"

  /** The registry has six sports; only football uses the v3 normaliser and
      sets the `last` and head-to-head capabilities, the others leave both unset. */
  lemma RegistryShape()
    ensures SportConfigs.Keys == {"football", "nba", "mlb", "nfl", "hockey", "handball"}
    ensures forall k: SportKey :: SportConfigs[k].normalize == FootballSchema <==> k == "football"
    ensures forall k: SportKey :: k == "football" ==> SportConfigs[k].supportsLast == Some(true) && SportConfigs[k].supportsH2H == Some(true)
    ensures forall k: SportKey :: k != "football" ==> SportConfigs[k].supportsLast == None && SportConfigs[k].supportsH2H == None
  {
  }

  /** The records a sport's normaliser accepts without throwing. */
  predicate Accepts(schema: Schema, item: Json) {
    match schema
    case FootballSchema => Normalize.FootballShaped(item)
    case V1Schema => !Nullish(item)
  }

  /** `SPORT_CONFIG[sport].normalize(item)`. */
  function NormalizeFor(sport: SportKey, item: Json, yearOf: Json -> int): (m: Match)
    requires Accepts(SportConfigs[sport].normalize, item)
    ensures sport != "football" ==> Normalize.Complete(m)
    ensures sport == "football" ==> m.score == Score(Get(Get(item, "goals"), "home"), Get(Get(item, "goals"), "away"))
  {
    match SportConfigs[sport].normalize
    case FootballSchema => Normalize.NormalizeFootball(item, yearOf)
    case V1Schema => Normalize.NormalizeV1(item, yearOf)
  }

  /** `resolveSport`: a registered key is returned as it is; a missing,
      empty or unknown key falls back to football. */
  function ResolveSport(key: Option<string>): (r: SportKey)
    ensures key.None? || key == Some("") ==> r == "football"
    ensures (key.Some? && r == key.value) <==> (key.Some? && key.value in SportConfigs)
    ensures key.Some? && key.value !in SportConfigs ==> r == "football"
  {
    if key.None? || key.value == "" then "football"
    else if key.value in SportConfigs then key.value
    else "football"
  }

  /** Resolving an already resolved key changes nothing. */
  lemma ResolveSportIdempotent(key: Option<string>)
    ensures ResolveSport(Some(ResolveSport(key))) == ResolveSport(key)
  {
  }

  // ---------------------------------------------------------------------
  // extractList

  /** The payload paths `extractList` probes, in order. */
  function ListCandidates(raw: Json): seq<Json> {
    [Get(Get(raw, "response"), "games"), Get(raw, "games"), Get(raw, "response"), Get(raw, "fixtures")]
  }

  /** `extractList`: the first present candidate when it is an array, and
      otherwise the empty list; a present non-array candidate does not fall
      through to later ones. Total: any payload, null included. */
  function ExtractList(raw: Json): (r: seq<Json>)
    ensures (forall i | 0 <= i < 4 :: Nullish(ListCandidates(raw)[i])) ==> r == []
    ensures forall i | IsFirstPresent(ListCandidates(raw), i) ::
      r == (if ListCandidates(raw)[i].Arr? then ListCandidates(raw)[i].items else [])
  {
    var cands := ListCandidates(raw);
    FirstPresentThree(cands[0], cands[1], cands[2], Coalesce(cands[3], Arr([])));
    var list := Coalesce(Get(Get(raw, "response"), "games"), Coalesce(Get(raw, "games"),
                Coalesce(Get(raw, "response"), Coalesce(Get(raw, "fixtures"), Arr([])))));
    match list
    case Arr(items) => items
    case _ => []
  }

  /** The four documented payload shapes give back their inner array as it is. */
  lemma ExtractListShapes(xs: seq<Json>)
    ensures ExtractList(Obj(map["response" := Arr(xs)])) == xs
    ensures ExtractList(Obj(map["response" := Obj(map["games" := Arr(xs)])])) == xs
    ensures ExtractList(Obj(map["games" := Arr(xs)])) == xs
    ensures ExtractList(Obj(map["fixtures" := Arr(xs)])) == xs
  {
  }

  /** A present non-array `response` hides a later `fixtures` array. */
  lemma ExtractListNoFallThrough(xs: seq<Json>)
    requires xs != []
    ensures ExtractList(Obj(map["response" := Str("error"), "fixtures" := Arr(xs)])) == []
  {
  }
}
