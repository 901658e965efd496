/** The shapes of the already-fetched JSON the client works on: fixture rows in
    their "flat" and "raw" layouts, per-fixture "advanced" payloads, line-ups and
    market quotes. Each record has one field per key the code reads; every field
    may be missing. */
module Payloads {
  import opened Js

  /** Home/away pair of an API-Football score part (`fulltime`, `halftime`). */
  datatype Half = Half(home: Option<int>, away: Option<int>)

  /** The goal fields `home/Home/h/H` and `away/Away/a/A` of a `goals` (or object `score`) record. */
  datatype GoalFields = GoalFields(
    home: Option<Val>, homeCap: Option<Val>, h: Option<Val>, hCap: Option<Val>,
    away: Option<Val>, awayCap: Option<Val>, a: Option<Val>, aCap: Option<Val>)

  /** An object-valued `score`: the API-Football parts plus flat goal fields. */
  datatype ScoreObj = ScoreObj(fulltime: Option<Half>, halftime: Option<Half>, goals: GoalFields)

  /** The `score` key: missing, a text such as "2 - 1", or an object. */
  datatype Score = NoScore | ScoreText(text: string) | ScoreObject(obj: ScoreObj)

  /** A row of an inline statistics array: `{type|key|name, home, away, val_home, ...}`. */
  datatype InlineRow = InlineRow(
    typ: Option<string>, key: Option<string>, name: Option<string>,
    home: Option<Val>, valueHome: Option<Val>, h: Option<Val>,
    away: Option<Val>, valueAway: Option<Val>, a: Option<Val>,
    valHome: Option<Val>, valAway: Option<Val>, val: Option<Val>)

  /** One fixture row. The flat layout carries `date/homeTeam/awayTeam/score`; the raw
      API-Football layout carries `fixture.{id,date}`, `teams.{home,away}.name` (or the
      alias `team.{home,away}.name`), `goals` and `score`. A row may carry keys of both. */
  datatype Fixture = Fixture(
    // flat layout
    homeTeam: Option<string>, awayTeam: Option<string>, date: Option<string>,
    // raw layout: teams.home.name, teams.away.name, team.home.name, team.away.name
    teamsHome: Option<string>, teamsAway: Option<string>,
    teamHome: Option<string>, teamAway: Option<string>,
    // raw layout: fixture.date, fixture.id
    fixtureDate: Option<string>, fixtureObjId: Option<Val>,
    // identifiers: fixtureId, id, match_id, fixture_id, game_id
    fixtureIdKey: Option<Val>, id: Option<Val>, matchId: Option<Val>, fixtureIdSnake: Option<Val>, gameId: Option<Val>,
    score: Score, goals: Option<GoalFields>,
    // inline statistics, and flat `<metric>_home` / `<metric>_away` keys
    statistics: Field<InlineRow>, table: Field<InlineRow>, flatStats: map<string, Val>)

  /** A cell of a team's statistics in an advanced payload: `{key|type|name, val|value|v}`. */
  datatype Cell = Cell(key: Option<string>, typ: Option<string>, name: Option<string>,
                       val: Option<Val>, value: Option<Val>, v: Option<Val>)

  /** The `team` key of an advanced statistics row: missing, a plain name, or `{name}`. */
  datatype TeamRef = NoTeam | TeamName(s: string) | TeamObj(name: Option<string>)

  /** One team's row of an advanced payload. */
  datatype TeamRow = TeamRow(team: TeamRef, table: Field<Cell>, statistics: Field<Cell>)

  /** A goal event: `{team, player, detail}`. */
  datatype GoalEvent = GoalEvent(team: Option<string>, player: Option<string>, detail: Option<string>)

  /** The per-fixture advanced payload: `statistics` or `stats` rows, and goal events
      under `events.goals` or `goals`. */
  datatype Advanced = Advanced(statistics: Field<TeamRow>, stats: Field<TeamRow>,
                               eventGoals: Option<seq<GoalEvent>>, goals: Option<seq<GoalEvent>>)

  /** A player or notification identifier: a number or a string. */
  datatype Id = NumId(n: int) | StrId(s: string)

  /** A line-up entry: `{id, name, player: {name}, status, reason}`. */
  datatype Player = Player(id: Option<Id>, name: Option<string>, playerName: Option<string>,
                           status: Option<string>, reason: Option<string>)

  /** One side of a composition: `{team_name, xi|startXI, bench|substitutes, out}`. */
  datatype Side = Side(teamName: Option<string>,
                       xi: Option<seq<Player>>, startXI: Option<seq<Player>>,
                       bench: Option<seq<Player>>, substitutes: Option<seq<Player>>,
                       out: Option<seq<Player>>)

  /** A `{home, draw, away}` triple of odds or probabilities. */
  datatype Trio = Trio(home: Option<real>, draw: Option<real>, away: Option<real>)

  /** An `odds` object: its `home`, `draw` and `away` entries, and the number of its own
      keys (a key holding null counts, and so does any key besides those three). */
  datatype Odds = Odds(quotes: Trio, keys: nat)

  /** A market quote: `{source, is_live, odds, implied_probs}`. */
  datatype Market = Market(source: Option<string>, isLive: Option<bool>, odds: Option<Odds>, implied: Option<Trio>)

  datatype Venue = Home | Away

  /** An entry of `missing_players_impact.{home,away}.details`: `{player_id, name}`. */
  datatype ImpactDetail = ImpactDetail(playerId: Option<Id>, name: Option<string>)

  /** The `features_used` block of a pre-match analysis: `players_index` (id text to name),
      `composition.{home,away}`, `missing_players_impact.{home,away}.details` and `market`. */
  datatype FeaturesUsed = FeaturesUsed(
    playersIndex: Option<map<string, string>>,
    compHome: Option<Side>, compAway: Option<Side>,
    impactHome: Option<seq<ImpactDetail>>, impactAway: Option<seq<ImpactDetail>>,
    market: Option<Market>)

  /** Decimal text of an identifier, as `String(id)` gives it and as object keys store it. */
  function IdText(id: Id): string {
    match id
    case NumId(n) => IntToString(n)
    case StrId(s) => s
  }

  /** Truthiness of an identifier: a non-zero number or a non-empty string. */
  predicate IdTruthy(id: Option<Id>) {
    match id
    case None => false
    case Some(NumId(n)) => n != 0
    case Some(StrId(s)) => s != ""
  }
}
