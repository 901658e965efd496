/** Reading team names, venues and per-match statistics out of fixture rows and
    "advanced" payloads of any of the shapes the back-end produces
    (src/utils/statsExtractors.ts). */
module StatsExtractors {
  import opened Js
  import opened Seqs
  import opened Payloads

  datatype Metric = Sot | Soff | Shots | Attacks | Dangerous | Fouls | Offsides | Corners | Yellow | Red

  /** The metric's identifier, as the code spells it. */
  function MetricName(m: Metric): string {
    match m
    case Sot => "sot"
    case Soff => "soff"
    case Shots => "shots"
    case Attacks => "attacks"
    case Dangerous => "dangerous"
    case Fouls => "fouls"
    case Offsides => "offsides"
    case Corners => "corners"
    case Yellow => "yellow"
    case Red => "red"
  }

  // ---------------------------------------------------------------- teams and perspective

  datatype Teams = Teams(homeName: Option<string>, awayName: Option<string>)

  /** `extractTeamsFromItem`: nothing for a missing row; the flat names when either is
      non-empty; otherwise `teams.X.name ?? team.X.name`. */
  function ExtractTeams(it: Option<Fixture>): (t: Teams)
    ensures it.None? ==> t == Teams(None, None)
    ensures it.Some? && (Truthy(it.value.homeTeam) || Truthy(it.value.awayTeam)) ==>
              t == Teams(it.value.homeTeam, it.value.awayTeam)
    ensures it.Some? && !Truthy(it.value.homeTeam) && !Truthy(it.value.awayTeam) ==>
              t.homeName == (if it.value.teamsHome.Some? then it.value.teamsHome else it.value.teamHome)
              && t.awayName == (if it.value.teamsAway.Some? then it.value.teamsAway else it.value.teamAway)
  {
    if it.None? then Teams(None, None)
    else
      var f := it.value;
      if Truthy(f.homeTeam) || Truthy(f.awayTeam) then Teams(f.homeTeam, f.awayTeam)
      else Teams(f.teamsHome.Or(f.teamHome), f.teamsAway.Or(f.teamAway))
  }

  /** `perspectiveForTeam`: the venue the team held, home taking precedence; nothing when
      a name is missing or empty or the team is neither. */
  function Perspective(it: Option<Fixture>, team: string): (v: Option<Venue>)
    ensures v == Some(Home) <==>
              Truthy(ExtractTeams(it).homeName) && Truthy(ExtractTeams(it).awayName)
              && ExtractTeams(it).homeName.value == team
    ensures v == Some(Away) <==>
              Truthy(ExtractTeams(it).homeName) && Truthy(ExtractTeams(it).awayName)
              && ExtractTeams(it).homeName.value != team && ExtractTeams(it).awayName.value == team
  {
    var t := ExtractTeams(it);
    if !Truthy(t.homeName) || !Truthy(t.awayName) then None
    else if t.homeName.value == team then Some(Home)
    else if t.awayName.value == team then Some(Away)
    else None
  }

  // ---------------------------------------------------------------- key normalisation

  /** `/\s+/g` replaced by one space: every run of white space becomes a single " ". */
  function CollapseWs(s: string): string
    decreases |s|
  {
    if |s| == 0 then ""
    else if IsWs(s[0]) then " " + CollapseWs(TrimStart(s))
    else [s[0]] + CollapseWs(s[1..])
  }

  predicate IsDash(c: char) { c == '\U{2013}' || c == '\U{2014}' }

  /** En and em dashes become "-". */
  function Dashes(s: string): (r: string)
    ensures |r| == |s|
  {
    seq(|s|, i requires 0 <= i < |s| => if IsDash(s[i]) then '-' else s[i])
  }

  /** `norm`: lower case, white-space runs collapsed to one space, trimmed, dashes
      unified. A missing key normalises as the empty text. */
  function Norm(s: string): string {
    Dashes(Trim(CollapseWs(Lower(s))))
  }

  function NormKey(s: Option<string>): string { Norm(s.GetOr("")) }

  /** The spellings of each metric, before normalisation. */
  function RawAliases(m: Metric): seq<string> {
    match m
    case Sot => ["shots on goal", "shots on target", "sog", "sot", "shots on targ.", "shots on targ",
                 "shots on-target", "on target", "shots_on_target"]
    case Soff => ["shots off goal", "shots off target", "soff", "off target", "shots_off_target"]
    case Shots => ["total shots", "shots total", "shots", "shot attempts"]
    case Attacks => ["attacks"]
    case Dangerous => ["dangerous attacks", "dangerous", "dangerous-atks"]
    case Fouls => ["fouls"]
    case Offsides => ["offsides", "offside"]
    case Corners => ["corner kicks", "corners", "corner"]
    case Yellow => ["yellow cards", "yellow", "yellow_cards"]
    case Red => ["red cards", "red", "red_cards"]
  }

  /** `METRIC_KEYS`: each spelling passed through `norm`. */
  function MetricKeys(m: Metric): (keys: seq<string>)
    ensures |keys| == |RawAliases(m)|
  {
    NormAll(RawAliases(m))
  }

  /** `arr.map(norm)` */
  function NormAll(raw: seq<string>): (keys: seq<string>)
    ensures |keys| == |raw|
  {
    seq(|raw|, i requires 0 <= i < |raw| => Norm(raw[i]))
  }

  // ---------------------------------------------------------------- numbers

  /** `toNumber`: the first "%" removed, surrounding white space ignored; missing, null and
      empty values read as 0 because `Number("")` is 0; text that is not a decimal numeral
      gives nothing. */
  function ToNumber(v: Option<Val>): (r: Option<real>)
    ensures v.None? || v == Some(Null) || v == Some(Str("")) ==> r == Some(0.0)
    ensures v.Some? && v.value.Num? ==> r == Some(v.value.x)
  {
    match v
    case None => JsNumber("")
    case Some(Null) => JsNumber("")
    case Some(Str(s)) => JsNumber(Trim(ReplaceFirst(s, '%', "")))
    case Some(Num(x)) => Some(x)
  }

  // ---------------------------------------------------------------- readStatValueFromItem

  /** The value of an inline `statistics` row for the metric and side, when its
      `type ?? key ?? name` is an alias and the value parses. */
  function StatRowValue(row: InlineRow, m: Metric, p: Venue): Option<real> {
    if NormKey(row.typ.Or(row.key).Or(row.name)) in MetricKeys(m) then
      ToNumber(if p == Home then Coalesce(Coalesce(row.home, row.valueHome), row.h)
               else Coalesce(Coalesce(row.away, row.valueAway), row.a))
    else None
  }

  /** The same for a `table` row, keyed `key ?? type ?? name`. */
  function TableRowValue(row: InlineRow, m: Metric, p: Venue): Option<real> {
    if NormKey(row.key.Or(row.typ).Or(row.name)) in MetricKeys(m) then
      ToNumber(if p == Home then Coalesce(Coalesce(Coalesce(row.valHome, row.home), row.h), row.val)
               else Coalesce(Coalesce(Coalesce(row.valAway, row.away), row.a), row.val))
    else None
  }

  function StatRowValues(rows: seq<InlineRow>, m: Metric, p: Venue): (r: seq<Option<real>>)
    ensures |r| == |rows|
  {
    seq(|rows|, i requires 0 <= i < |rows| => StatRowValue(rows[i], m, p))
  }

  function TableRowValues(rows: seq<InlineRow>, m: Metric, p: Venue): (r: seq<Option<real>>)
    ensures |r| == |rows|
  {
    seq(|rows|, i requires 0 <= i < |rows| => TableRowValue(rows[i], m, p))
  }

  /** The flat key of the last resort, `<metric>_home` or `<metric>_away`, one case per metric. */
  function FlatKey(m: Metric, p: Venue): string {
    match m
    case Corners => if p == Home then "corners_home" else "corners_away"
    case Sot => if p == Home then "sot_home" else "sot_away"
    case Soff => if p == Home then "soff_home" else "soff_away"
    case Shots => if p == Home then "shots_home" else "shots_away"
    case Yellow => if p == Home then "yellow_home" else "yellow_away"
    case Red => if p == Home then "red_home" else "red_away"
    case Fouls => if p == Home then "fouls_home" else "fouls_away"
    case Offsides => if p == Home then "offsides_home" else "offsides_away"
    case Attacks => if p == Home then "attacks_home" else "attacks_away"
    case Dangerous => if p == Home then "dangerous_home" else "dangerous_away"
  }

  function FlatField(f: Fixture, k: string): Option<Val> {
    if k in f.flatStats then Some(f.flatStats[k]) else None
  }

  function FieldRows<T>(f: Field<T>): seq<T> { if f.Arr? then f.items else [] }

  /** What `readStatValueFromItem` returns: the first usable `statistics` row, else the first
      usable `table` row, else the flat field. */
  function ItemValue(it: Option<Fixture>, m: Metric, p: Venue): Option<real> {
    if it.None? then None
    else
      var f := it.value;
      var a := FirstOf(StatRowValues(FieldRows(f.statistics), m, p));
      if a.Some? then a
      else
        var b := FirstOf(TableRowValues(FieldRows(f.table), m, p));
        if b.Some? then b
        else ToNumber(FlatField(f, FlatKey(m, p)))
  }

  /** `readStatValueFromItem` */
  method ReadStatValueFromItem(it: Option<Fixture>, m: Metric, p: Venue) returns (r: Option<real>)
    ensures r == ItemValue(it, m, p)
  {
    if it.None? { return None; }
    var f := it.value;
    if f.statistics.Arr? {
      r := ScanStatRows(f.statistics.items, m, p);
      if r.Some? { return r; }
    }
    if f.table.Arr? {
      r := ScanTableRows(f.table.items, m, p);
      if r.Some? { return r; }
    }
    r := ToNumber(FlatField(f, FlatKey(m, p)));
  }

  /** The loop (A) over `statistics`: the first row keyed, by `type ?? key ?? name`, with an
      alias of the metric whose side value `toNumber` reads. */
  method ScanStatRows(rows: seq<InlineRow>, m: Metric, p: Venue) returns (r: Option<real>)
    ensures r == FirstOf(StatRowValues(rows, m, p))
  {
    ghost var vs := StatRowValues(rows, m, p);
    var i := 0;
    while i < |rows|
      invariant 0 <= i <= |rows|
      invariant FirstOf(vs) == FirstOf(vs[i..])
    {
      var parsed := ReadStatRow(rows[i], m, p);
      FirstOfAt(vs, i);
      if parsed.Some? {
        return parsed;
      }
      i := i + 1;
    }
    return None;
  }

  method ReadStatRow(row: InlineRow, m: Metric, p: Venue) returns (r: Option<real>)
    ensures r == StatRowValue(row, m, p)
  {
    var keyNorm := NormKey(row.typ.Or(row.key).Or(row.name));
    if keyNorm !in MetricKeys(m) { return None; }
    var v := if p == Home then Coalesce(Coalesce(row.home, row.valueHome), row.h)
             else Coalesce(Coalesce(row.away, row.valueAway), row.a);
    return ToNumber(v);
  }

  /** The loop (B) over `table`: keyed by `key ?? type ?? name`, falling back to `val` for
      either side. */
  method ScanTableRows(rows: seq<InlineRow>, m: Metric, p: Venue) returns (r: Option<real>)
    ensures r == FirstOf(TableRowValues(rows, m, p))
  {
    ghost var vs := TableRowValues(rows, m, p);
    var i := 0;
    while i < |rows|
      invariant 0 <= i <= |rows|
      invariant FirstOf(vs) == FirstOf(vs[i..])
    {
      var parsed := ReadTableRow(rows[i], m, p);
      FirstOfAt(vs, i);
      if parsed.Some? {
        return parsed;
      }
      i := i + 1;
    }
    return None;
  }

  method ReadTableRow(row: InlineRow, m: Metric, p: Venue) returns (r: Option<real>)
    ensures r == TableRowValue(row, m, p)
  {
    var keyNorm := NormKey(row.key.Or(row.typ).Or(row.name));
    if keyNorm !in MetricKeys(m) { return None; }
    var v := if p == Home then Coalesce(Coalesce(Coalesce(row.valHome, row.home), row.h), row.val)
             else Coalesce(Coalesce(Coalesce(row.valAway, row.away), row.a), row.val);
    return ToNumber(v);
  }

  // ---------------------------------------------------------------- readStatValueFromAdvanced

  /** `team.name ?? team` as text: a team object without a name prints as "[object Object]". */
  function TeamText(t: TeamRef): string {
    match t
    case NoTeam => ""
    case TeamName(s) => s
    case TeamObj(n) => if n.Some? then n.value else "[object Object]"
  }

  /** `statistics ?? stats`: only a missing or null `statistics` falls through. */
  function RowsOf(adv: Advanced): Field<TeamRow> {
    if adv.statistics.Missing? then adv.stats else adv.statistics
  }

  predicate IsTeamRow(r: TeamRow, teamName: string) { Norm(TeamText(r.team)) == Norm(teamName) }

  function TeamRowOf(rows: seq<TeamRow>, teamName: string): Option<TeamRow> {
    Find(rows, r => IsTeamRow(r, teamName))
  }

  function TableCellValue(c: Cell, m: Metric): Option<real> {
    if NormKey(c.key.Or(c.typ).Or(c.name)) in MetricKeys(m) then ToNumber(Coalesce(Coalesce(c.val, c.value), c.v))
    else None
  }

  function StatsCellValue(c: Cell, m: Metric): Option<real> {
    if NormKey(c.typ.Or(c.key).Or(c.name)) in MetricKeys(m) then ToNumber(Coalesce(Coalesce(c.value, c.val), c.v))
    else None
  }

  function TableCellValues(cells: seq<Cell>, m: Metric): (r: seq<Option<real>>)
    ensures |r| == |cells|
  {
    seq(|cells|, i requires 0 <= i < |cells| => TableCellValue(cells[i], m))
  }

  function StatsCellValues(cells: seq<Cell>, m: Metric): (r: seq<Option<real>>)
    ensures |r| == |cells|
  {
    seq(|cells|, i requires 0 <= i < |cells| => StatsCellValue(cells[i], m))
  }

  /** The value found in one team row: its `table` first, then its `statistics`. */
  function TeamRowValue(row: TeamRow, m: Metric): Option<real> {
    var a := FirstOf(TableCellValues(FieldRows(row.table), m));
    if a.Some? then a else FirstOf(StatsCellValues(FieldRows(row.statistics), m))
  }

  /** What `readStatValueFromAdvanced` returns. */
  function AdvancedValue(adv: Option<Advanced>, teamName: string, m: Metric): Option<real> {
    if adv.None? then None
    else
      var rows := RowsOf(adv.value);
      if !rows.Arr? || |rows.items| == 0 then None
      else
        match TeamRowOf(rows.items, teamName)
        case None => None
        case Some(row) => TeamRowValue(row, m)
  }

  /** `readStatValueFromAdvanced` */
  method ReadStatValueFromAdvanced(adv: Option<Advanced>, teamName: string, m: Metric) returns (r: Option<real>)
    ensures r == AdvancedValue(adv, teamName, m)
  {
    if adv.None? { return None; }
    var rows := RowsOf(adv.value);
    if !rows.Arr? || |rows.items| == 0 { return None; }
    var teamRow := TeamRowOf(rows.items, teamName);
    if teamRow.None? { return None; }
    var row := teamRow.value;
    if row.table.Arr? {
      r := ScanTableCells(row.table.items, m);
      if r.Some? { return; }
    }
    if row.statistics.Arr? {
      r := ScanStatsCells(row.statistics.items, m);
      return;
    }
    return None;
  }

  /** The loop over a row's `table`: the first cell named after the metric whose value
      `toNumber` reads, keyed by `key ?? type ?? name` and valued by `val ?? value ?? v`. */
  method ScanTableCells(cells: seq<Cell>, m: Metric) returns (r: Option<real>)
    ensures r == FirstOf(TableCellValues(cells, m))
  {
    ghost var vs := TableCellValues(cells, m);
    var i := 0;
    while i < |cells|
      invariant 0 <= i <= |cells|
      invariant FirstOf(vs) == FirstOf(vs[i..])
    {
      var parsed := ReadTableCell(cells[i], m);
      FirstOfAt(vs, i);
      if parsed.Some? {
        return parsed;
      }
      i := i + 1;
    }
    return None;
  }

  method ReadTableCell(cell: Cell, m: Metric) returns (r: Option<real>)
    ensures r == TableCellValue(cell, m)
  {
    var keyNorm := NormKey(cell.key.Or(cell.typ).Or(cell.name));
    if keyNorm !in MetricKeys(m) { return None; }
    return ToNumber(Coalesce(Coalesce(cell.val, cell.value), cell.v));
  }

  /** The loop over a row's `statistics`: keyed by `type ?? key ?? name`, valued by
      `value ?? val ?? v`. */
  method ScanStatsCells(cells: seq<Cell>, m: Metric) returns (r: Option<real>)
    ensures r == FirstOf(StatsCellValues(cells, m))
  {
    ghost var vs := StatsCellValues(cells, m);
    var i := 0;
    while i < |cells|
      invariant 0 <= i <= |cells|
      invariant FirstOf(vs) == FirstOf(vs[i..])
    {
      var parsed := ReadStatsCell(cells[i], m);
      FirstOfAt(vs, i);
      if parsed.Some? {
        return parsed;
      }
      i := i + 1;
    }
    return None;
  }

  method ReadStatsCell(cell: Cell, m: Metric) returns (r: Option<real>)
    ensures r == StatsCellValue(cell, m)
  {
    var keyNorm := NormKey(cell.typ.Or(cell.key).Or(cell.name));
    if keyNorm !in MetricKeys(m) { return None; }
    return ToNumber(Coalesce(Coalesce(cell.value, cell.val), cell.v));
  }

  // ---------------------------------------------------------------- averages and padding

  /** The numbers among `values`, in order. */
  function Present(values: seq<Option<real>>): (r: seq<real>)
    ensures |r| <= |values|
  {
    if |values| == 0 then []
    else if values[|values| - 1].Some? then Present(values[..|values| - 1]) + [values[|values| - 1].value]
    else Present(values[..|values| - 1])
  }

  /** `computeAvg`: nothing when no value is a number, otherwise their mean rounded to two
      decimals. */
  function ComputeAvg(values: seq<Option<real>>): (r: Option<real>)
    ensures r.None? <==> forall i :: 0 <= i < |values| ==> values[i].None?
  {
    PresentEmpty(values);
    var arr := Present(values);
    if |arr| == 0 then None else Some(Round2(Sum(arr) / |arr| as real))
  }

  /** `pad5`: exactly five entries, the first ones of `arr` in order, then `fill`. */
  function Pad5<T>(arr: seq<T>, fill: T): (r: seq<T>)
    ensures |r| == 5
    ensures forall i :: 0 <= i < 5 && i < |arr| ==> r[i] == arr[i]
    ensures forall i :: |arr| <= i < 5 ==> r[i] == fill
  {
    var padding := if |arr| < 5 then 5 - |arr| else 0;
    (arr + seq(padding, _ => fill))[..5]
  }

  // ---------------------------------------------------------------- fixture id

  /** `fixtureIdOf`: the first of `fixture.id`, `id`, `match_id`, `fixture_id`, `game_id`
      that is neither missing nor null, else null. */
  function FixtureIdOf(it: Option<Fixture>): (r: Val)
    ensures it.None? ==> r == Null
    ensures it.Some? ==>
              var ids := IdCandidates(it.value);
              (r == Null <==> forall k :: 0 <= k < 5 ==> IsNullish(ids[k]))
              && (r != Null ==> exists k :: 0 <= k < 5 && ids[k] == Some(r) && forall j :: 0 <= j < k ==> IsNullish(ids[j]))
  {
    if it.None? then Null
    else
      var v := CoalesceAll(IdCandidates(it.value));
      CoalesceAllIsFirst(IdCandidates(it.value));
      if IsNullish(v) then Null else v.value
  }

  function IdCandidates(f: Fixture): (ids: seq<Option<Val>>)
    ensures |ids| == 5
  {
    [f.fixtureObjId, f.id, f.matchId, f.fixtureIdSnake, f.gameId]
  }

  // ---------------------------------------------------------------- lemmas

  lemma PresentEmpty(values: seq<Option<real>>)
    ensures |Present(values)| == 0 <==> forall i :: 0 <= i < |values| ==> values[i].None?
  {
    if |values| > 0 {
      PresentEmpty(values[..|values| - 1]);
    }
  }

  /** The result of `readStatValueFromItem` comes from the first row, in array order, whose
      key is an alias of the metric and whose value parses; `statistics` rows are tried
      before `table` rows. */
  lemma ItemValueIsFirstUsableRow(f: Fixture, m: Metric, p: Venue)
    requires FirstOf(StatRowValues(FieldRows(f.statistics), m, p)).Some?
    ensures var rows := FieldRows(f.statistics);
            exists i :: 0 <= i < |rows| && ItemValue(Some(f), m, p) == StatRowValue(rows[i], m, p)
              && NormKey(rows[i].typ.Or(rows[i].key).Or(rows[i].name)) in MetricKeys(m)
              && forall j :: 0 <= j < i ==> StatRowValue(rows[j], m, p).None?
  {
    var rows := FieldRows(f.statistics);
    var vs := StatRowValues(rows, m, p);
    FirstOfIsFirst(vs);
    var i :| 0 <= i < |vs| && vs[i] == FirstOf(vs) && forall j :: 0 <= j < i ==> vs[j].None?;
    assert ItemValue(Some(f), m, p) == vs[i] == StatRowValue(rows[i], m, p);
    StatRowKey(rows[i], m, p);
    forall j | 0 <= j < i ensures StatRowValue(rows[j], m, p).None? {
      assert vs[j] == StatRowValue(rows[j], m, p);
    }
  }

  lemma StatRowKey(row: InlineRow, m: Metric, p: Venue)
    requires StatRowValue(row, m, p).Some?
    ensures NormKey(row.typ.Or(row.key).Or(row.name)) in MetricKeys(m)
  {
  }

  /** For a present row, when no row matches the fallback is the flat field through
      `toNumber`: so a missing flat field gives 0, and nothing only comes from a flat value
      that is not numeric. */
  lemma ItemValueFallback(f: Fixture, m: Metric, p: Venue)
    requires forall i :: 0 <= i < |FieldRows(f.statistics)| ==> StatRowValue(FieldRows(f.statistics)[i], m, p).None?
    requires forall i :: 0 <= i < |FieldRows(f.table)| ==> TableRowValue(FieldRows(f.table)[i], m, p).None?
    ensures ItemValue(Some(f), m, p) == ToNumber(FlatField(f, FlatKey(m, p)))
    ensures FlatKey(m, p) !in f.flatStats ==> ItemValue(Some(f), m, p) == Some(0.0)
  {
    FirstOfIsFirst(StatRowValues(FieldRows(f.statistics), m, p));
    FirstOfIsFirst(TableRowValues(FieldRows(f.table), m, p));
  }

  /** `readStatValueFromItem` gives nothing only for a missing row or a flat field that
      is present but not a number. */
  lemma ItemValueNoneCases(it: Option<Fixture>, m: Metric, p: Venue)
    ensures ItemValue(it, m, p).None? <==>
              it.None? || (FlatKey(m, p) in it.value.flatStats && ToNumber(FlatField(it.value, FlatKey(m, p))).None?
                           && FirstOf(StatRowValues(FieldRows(it.value.statistics), m, p)).None?
                           && FirstOf(TableRowValues(FieldRows(it.value.table), m, p)).None?)
  {
  }

  /** The flat key is the metric's identifier followed by the side. */
  lemma FlatKeyIsMetricAndSide(m: Metric, p: Venue)
    ensures FlatKey(m, p) == MetricName(m) + (if p == Home then "_home" else "_away")
  {
    if p == Home { FlatKeyHome(m); } else { FlatKeyAway(m); }
  }

  lemma FlatKeyHome(m: Metric)
    ensures FlatKey(m, Home) == MetricName(m) + "_home"
  {
  }

  lemma FlatKeyAway(m: Metric)
    ensures FlatKey(m, Away) == MetricName(m) + "_away"
  {
  }

  /** `readStatValueFromAdvanced` gives a number only from a cell of the first row whose
      normalised team equals the normalised team name, and that cell's key is an alias. */
  lemma AdvancedValueSource(adv: Advanced, teamName: string, m: Metric)
    requires AdvancedValue(Some(adv), teamName, m).Some?
    ensures RowsOf(adv).Arr?
    ensures exists k :: 0 <= k < |RowsOf(adv).items| && IsTeamRow(RowsOf(adv).items[k], teamName)
              && (forall j :: 0 <= j < k ==> !IsTeamRow(RowsOf(adv).items[j], teamName))
              && AdvancedValue(Some(adv), teamName, m) == TeamRowValue(RowsOf(adv).items[k], m)
  {
    var rows := RowsOf(adv).items;
    FindIsFirst(rows, r => IsTeamRow(r, teamName));
  }

  /** Within the team row, a `table` cell that reads wins over every `statistics` cell. */
  lemma TeamRowValueTableFirst(row: TeamRow, m: Metric, i: nat)
    requires row.table.Arr? && i < |row.table.items|
    requires TableCellValue(row.table.items[i], m).Some?
    requires forall j :: 0 <= j < i ==> TableCellValue(row.table.items[j], m).None?
    ensures TeamRowValue(row, m) == TableCellValue(row.table.items[i], m)
  {
    var vs := TableCellValues(row.table.items, m);
    assert FieldRows(row.table) == row.table.items;
    forall j | 0 <= j < i ensures vs[j].None? {
      assert vs[j] == TableCellValue(row.table.items[j], m);
    }
    FirstOfSkip(vs, i);
    assert vs[i..][0] == vs[i] == TableCellValue(row.table.items[i], m);
  }

  /** `readStatValueFromAdvanced` gives nothing for a payload without rows. */
  lemma AdvancedValueNoRows(adv: Advanced, teamName: string, m: Metric)
    requires !RowsOf(adv).Arr? || |RowsOf(adv).items| == 0
    ensures AdvancedValue(Some(adv), teamName, m).None?
  {
  }

  /** A whole number written out, with or without a trailing "%", reads back as itself. */
  lemma ToNumberOfNumeral(n: nat)
    ensures ToNumber(Some(Str(NatToString(n)))) == Some(n as real)
    ensures ToNumber(Some(Str(NatToString(n) + "%"))) == Some(n as real)
  {
    ToNumberOfDigits(NatToString(n));
    DigitsValueOfNatToString(n);
  }

  lemma ToNumberOfDigits(d: string)
    requires |d| > 0 && AllDigits(d)
    ensures ToNumber(Some(Str(d))) == Some(DigitsValue(d) as real)
    ensures ToNumber(Some(Str(d + "%"))) == Some(DigitsValue(d) as real)
  {
    ToNumberOfStr(d);
    ToNumberOfStr(d + "%");
    NoPercentInDigits(d);
    ReplaceFirstAtEnd(d);
    TrimOfDigits(d);
    JsNumberOfDigits(d);
  }

  lemma ToNumberOfStr(s: string)
    ensures ToNumber(Some(Str(s))) == JsNumber(Trim(ReplaceFirst(s, '%', "")))
  {
  }

  lemma JsNumberOfDigits(d: string)
    requires |d| > 0 && AllDigits(d)
    ensures JsNumber(d) == Some(DigitsValue(d) as real)
  {
    TrimOfDigits(d);
    ParseDecimalOfDigits(d);
  }

  lemma {:induction false} NoPercentInDigits(d: string)
    requires AllDigits(d)
    ensures ReplaceFirst(d, '%', "") == d
  {
    if |d| > 0 {
      assert d[0] != '%';
      assert AllDigits(d[1..]) by { forall i | 0 <= i < |d| - 1 ensures IsDigit(d[1..][i]) { assert d[1..][i] == d[i + 1]; } }
      NoPercentInDigits(d[1..]);
      assert d == [d[0]] + d[1..];
    }
  }

  lemma {:induction false} ReplaceFirstAtEnd(d: string)
    requires AllDigits(d)
    ensures ReplaceFirst(d + "%", '%', "") == d
  {
    if |d| == 0 {
      assert d + "%" == "%";
    } else {
      assert d[0] != '%';
      assert AllDigits(d[1..]) by { forall i | 0 <= i < |d| - 1 ensures IsDigit(d[1..][i]) { assert d[1..][i] == d[i + 1]; } }
      ReplaceFirstAtEnd(d[1..]);
      assert (d + "%")[1..] == d[1..] + "%";
      assert d == [d[0]] + d[1..];
    }
  }

  /** The numbers kept are exactly the present entries. */
  lemma {:induction false} PresentMembers(values: seq<Option<real>>)
    ensures forall x :: x in Present(values) <==> Some(x) in values
  {
    if |values| > 0 {
      PresentMembers(values[..|values| - 1]);
      assert values == values[..|values| - 1] + [values[|values| - 1]];
    }
  }

  lemma {:induction false} SumBounds(xs: seq<real>, lo: real, hi: real)
    requires forall i :: 0 <= i < |xs| ==> lo <= xs[i] <= hi
    ensures lo * |xs| as real <= Sum(xs) <= hi * |xs| as real
  {
    if |xs| > 0 {
      SumBounds(xs[..|xs| - 1], lo, hi);
    }
  }

  lemma MeanBounds(sum: real, n: real, lo: real, hi: real)
    requires n > 0.0 && lo * n <= sum <= hi * n
    ensures lo <= sum / n <= hi
  {
    assert sum / n - lo == (sum - lo * n) / n;
    assert hi - sum / n == (hi * n - sum) / n;
  }

  /** The average lies between the smallest and the largest present value, up to the
      two-decimal rounding. */
  lemma AvgWithinBounds(values: seq<Option<real>>, lo: real, hi: real)
    requires forall i :: 0 <= i < |values| && values[i].Some? ==> lo <= values[i].value <= hi
    ensures ComputeAvg(values).Some? ==> lo - 0.005 <= ComputeAvg(values).value <= hi + 0.005
  {
    var arr := Present(values);
    if |arr| > 0 {
      PresentMembers(values);
      forall i | 0 <= i < |arr| ensures lo <= arr[i] <= hi {
        assert arr[i] in arr;
      }
      SumBounds(arr, lo, hi);
      var n := |arr| as real;
      MeanBounds(Sum(arr), n, lo, hi);
      Round2Error(Sum(arr) / n);
    }
  }

  // ---------------------------------------------------------------- normal form of keys

  predicate NoUpper(s: string) { forall i :: 0 <= i < |s| ==> !IsUpper(s[i]) }
  predicate NoDash(s: string) { forall i :: 0 <= i < |s| ==> !IsDash(s[i]) }
  /** The only white space is the plain space. */
  predicate OnlySpaces(s: string) { forall i :: 0 <= i < |s| ==> IsWs(s[i]) ==> s[i] == ' ' }
  predicate NoDoubleWs(s: string) { forall i :: 0 <= i < |s| - 1 ==> !(IsWs(s[i]) && IsWs(s[i + 1])) }
  predicate Trimmed(s: string) { |s| == 0 || (!IsWs(s[0]) && !IsWs(s[|s| - 1])) }

  /** A key that `norm` leaves as it is. */
  predicate IsNormal(s: string) {
    NoUpper(s) && NoDash(s) && OnlySpaces(s) && NoDoubleWs(s) && Trimmed(s)
  }

  lemma {:induction false} CollapseWsShape(s: string)
    ensures OnlySpaces(CollapseWs(s)) && NoDoubleWs(CollapseWs(s))
    ensures NoUpper(s) ==> NoUpper(CollapseWs(s))
    ensures |s| > 0 && !IsWs(s[0]) ==> |CollapseWs(s)| > 0 && CollapseWs(s)[0] == s[0]
    decreases |s|
  {
    if |s| > 0 {
      var t := if IsWs(s[0]) then TrimStart(s) else s[1..];
      var x := if IsWs(s[0]) then ' ' else s[0];
      assert t == s[|s| - |t|..|s|];
      assert CollapseWs(s) == [x] + CollapseWs(t);
      CollapseWsShape(t);
      SliceShape(s, |s| - |t|, |s|);
      if NoUpper(s) {
        assert !IsUpper(s[0]);
      }
      ConsShape(x, CollapseWs(t));
    }
  }

  /** Putting one character in front of a collapsed text keeps it collapsed, when a white
      space put there is a plain space before something else. */
  lemma ConsShape(x: char, t: string)
    requires OnlySpaces(t) && NoDoubleWs(t)
    requires IsWs(x) ==> x == ' ' && (|t| == 0 || !IsWs(t[0]))
    ensures OnlySpaces([x] + t) && NoDoubleWs([x] + t)
    ensures NoUpper(t) && !IsUpper(x) ==> NoUpper([x] + t)
  {
    var c := [x] + t;
    forall i | 0 < i < |c| ensures c[i] == t[i - 1] { }
  }

  lemma {:induction false} CollapseWsOfNormal(s: string)
    requires OnlySpaces(s) && NoDoubleWs(s)
    ensures CollapseWs(s) == s
    decreases |s|
  {
    if |s| > 0 {
      var t := s[1..];
      NormalTail(s);
      CollapseWsOfNormal(t);
      if IsWs(s[0]) {
        assert s[0] == ' ';
        TrimStartOne(s);
        assert CollapseWs(s) == " " + CollapseWs(t);
      } else {
        assert CollapseWs(s) == [s[0]] + CollapseWs(t);
      }
      assert s == [s[0]] + t;
    }
  }

  lemma NormalTail(s: string)
    requires |s| > 0 && OnlySpaces(s) && NoDoubleWs(s)
    ensures OnlySpaces(s[1..]) && NoDoubleWs(s[1..])
    ensures IsWs(s[0]) && |s| > 1 ==> !IsWs(s[1])
  {
    forall i | 0 <= i < |s| - 1 ensures s[1..][i] == s[i + 1] { }
  }

  /** A single leading white space is all `TrimStart` removes when the next one is not. */
  lemma TrimStartOne(s: string)
    requires |s| > 0 && IsWs(s[0]) && (|s| > 1 ==> !IsWs(s[1]))
    ensures TrimStart(s) == s[1..]
  {
    assert TrimStart(s) == TrimStart(s[1..]);
  }

  /** A slice keeps every per-character property of the text it is cut from. */
  lemma SliceShape(s: string, a: nat, b: nat)
    requires a <= b <= |s|
    ensures NoUpper(s) ==> NoUpper(s[a..b])
    ensures OnlySpaces(s) ==> OnlySpaces(s[a..b])
    ensures NoDoubleWs(s) ==> NoDoubleWs(s[a..b])
  {
    var t := s[a..b];
    forall i | 0 <= i < |t| ensures t[i] == s[a + i] { }
  }

  lemma TrimShape(s: string)
    ensures Trimmed(Trim(s))
    ensures NoUpper(s) ==> NoUpper(Trim(s))
    ensures OnlySpaces(s) ==> OnlySpaces(Trim(s))
    ensures NoDoubleWs(s) ==> NoDoubleWs(Trim(s))
  {
    TrimStartShape(s);
    TrimEndShape(TrimStart(s));
  }

  lemma TrimStartShape(s: string)
    ensures var u := TrimStart(s);
            && (NoUpper(s) ==> NoUpper(u))
            && (OnlySpaces(s) ==> OnlySpaces(u))
            && (NoDoubleWs(s) ==> NoDoubleWs(u))
  {
    var u := TrimStart(s);
    assert u == s[|s| - |u|..|s|];
    SliceShape(s, |s| - |u|, |s|);
  }

  lemma TrimEndShape(u: string)
    ensures var t := TrimEnd(u);
            && (|u| > 0 && !IsWs(u[0]) ==> Trimmed(t))
            && (NoUpper(u) ==> NoUpper(t))
            && (OnlySpaces(u) ==> OnlySpaces(t))
            && (NoDoubleWs(u) ==> NoDoubleWs(t))
  {
    var t := TrimEnd(u);
    assert t == u[0..|t|];
    SliceShape(u, 0, |t|);
    if |t| > 0 {
      assert t[0] == u[0];
    }
  }

  lemma DashesShape(s: string)
    ensures NoDash(Dashes(s))
    ensures NoUpper(s) ==> NoUpper(Dashes(s))
    ensures OnlySpaces(s) ==> OnlySpaces(Dashes(s))
    ensures NoDoubleWs(s) ==> NoDoubleWs(Dashes(s))
    ensures Trimmed(s) ==> Trimmed(Dashes(s))
    ensures NoDash(s) ==> Dashes(s) == s
  {
  }

  /** Every key `norm` produces is in normal form. */
  lemma NormIsNormal(s: string)
    ensures IsNormal(Norm(s))
  {
    var l := Lower(s);
    assert NoUpper(l);
    CollapseWsShape(l);
    TrimShape(CollapseWs(l));
    DashesShape(Trim(CollapseWs(l)));
  }

  /** `norm` leaves a key in normal form unchanged. */
  lemma NormOfNormal(s: string)
    requires IsNormal(s)
    ensures Norm(s) == s
  {
    assert Lower(s) == s;
    CollapseWsOfNormal(s);
    assert TrimStart(s) == s;
    assert TrimEnd(s) == s;
    DashesShape(s);
  }

  /** `norm` is idempotent. */
  lemma NormIdempotent(s: string)
    ensures Norm(Norm(s)) == Norm(s)
  {
    NormIsNormal(s);
    NormOfNormal(Norm(s));
  }

  /** Every alias of `METRIC_KEYS` is stored already normalised, so a key read from a
      payload matches an alias exactly when the two normalise to the same text. */
  lemma AliasesAreNormalised(m: Metric, key: string)
    ensures forall a :: a in MetricKeys(m) ==> Norm(a) == a
    ensures Norm(key) in MetricKeys(m) <==> exists i :: 0 <= i < |RawAliases(m)| && Norm(key) == Norm(RawAliases(m)[i])
  {
    NormAllNormalised(RawAliases(m), key);
  }

  lemma NormAllNormalised(raw: seq<string>, key: string)
    ensures forall a :: a in NormAll(raw) ==> Norm(a) == a
    ensures Norm(key) in NormAll(raw) <==> exists i :: 0 <= i < |raw| && Norm(key) == Norm(raw[i])
  {
    forall a | a in NormAll(raw) ensures Norm(a) == a {
      var i :| 0 <= i < |raw| && NormAll(raw)[i] == a;
      NormIdempotent(raw[i]);
    }
    if exists i :: 0 <= i < |raw| && Norm(key) == Norm(raw[i]) {
      var i :| 0 <= i < |raw| && Norm(key) == Norm(raw[i]);
      assert NormAll(raw)[i] == Norm(key);
    }
  }
}
