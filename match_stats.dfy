/** The statistics side of the match page (src/pages/MatchAnalysis.tsx): its own metric
    reader over advanced payloads, the per-metric series of a list of payloads, the
    recent-scorer table and the roster status of a scorer. */
module MatchStats {
  import opened Js
  import opened Seqs
  import opened Payloads
  import opened StatsExtractors
  import Football

  // ---------------------------------------------------------------- _readMetricFromAdvanced

  /** The page's own alias table. Unlike the shared one it is not normalised: it is
      compared after lower-casing only. */
  function PageAliases(m: Metric): (ks: seq<string>)
    ensures |ks| > 0
  {
    match m
    case Sot => ["Shots on Goal", "Shots On Goal", "Shots on target", "Shots On Target",
                 "On Target", "SOG", "SoT", "shots_on_target", "sot"]
    case Soff => ["Shots off Goal", "Shots Off Goal", "Off Target", "SOFF", "shots_off_target", "soff"]
    case Shots => ["Total Shots", "Shots", "shots", "Total shots"]
    case Attacks => ["Attacks", "attacks"]
    case Dangerous => ["Dangerous Attacks", "dangerous_attacks", "Dangerous"]
    case Fouls => ["Fouls", "fouls"]
    case Offsides => ["Offsides", "offsides"]
    case Corners => ["Corner Kicks", "Corners", "Corner", "corners"]
    case Yellow => ["Yellow Cards", "Yellow", "yellow_cards", "yellow"]
    case Red => ["Red Cards", "Red", "red_cards", "red"]
  }

  /** A row is the team's when `team.name ?? team` and the name agree once lower-cased. */
  predicate IsPageTeamRow(r: TeamRow, teamName: string) { Lower(TeamText(r.team)) == Lower(teamName) }

  function PageTeamTest(teamName: string): TeamRow -> bool { r => IsPageTeamRow(r, teamName) }

  /** `row.table ?? row.statistics ?? []`: only a missing `table` falls through. */
  function PageTable(row: TeamRow): Field<Cell> {
    if !row.table.Missing? then row.table
    else if !row.statistics.Missing? then row.statistics
    else Arr([])
  }

  /** `x.key || x.type || x.name`: the first non-empty label, else `name` as it is. */
  function CellLabel(c: Cell): Option<string> { OrElse(OrElse(c.key, c.typ), c.name) }

  predicate CellMatches(c: Cell, k: string) { CellLabel(c).Some? && Lower(CellLabel(c).value) == Lower(k) }

  function CellTest(k: string): Cell -> bool { c => CellMatches(c, k) }

  /** The value behind one alias: the first cell labelled with it, read through
      `val ?? value ?? v`; nothing when no cell has the label or its value does not parse. */
  function AliasValue(cells: seq<Cell>, k: string): Option<real> {
    match Find(cells, CellTest(k))
    case None => None
    case Some(c) => ToNumber(Coalesce(Coalesce(c.val, c.value), c.v))
  }

  function AliasValues(cells: seq<Cell>, ks: seq<string>): (r: seq<Option<real>>)
    ensures |r| == |ks|
  {
    seq(|ks|, i requires 0 <= i < |ks| => AliasValue(cells, ks[i]))
  }

  /** What `_readMetricFromAdvanced` returns. */
  function MetricValue(adv: Option<Advanced>, teamName: string, m: Metric): Option<real> {
    if adv.None? then None
    else
      var rows := RowsOf(adv.value);
      if !rows.Arr? || |rows.items| == 0 then None
      else
        match Find(rows.items, PageTeamTest(teamName))
        case None => None
        case Some(row) =>
          var table := PageTable(row);
          if !table.Arr? then None else FirstOf(AliasValues(table.items, PageAliases(m)))
  }

  /** `_readMetricFromAdvanced` */
  method ReadMetricFromAdvanced(adv: Option<Advanced>, teamName: string, m: Metric) returns (r: Option<real>)
    ensures r == MetricValue(adv, teamName, m)
  {
    if adv.None? { return None; }
    var rows := RowsOf(adv.value);
    if !rows.Arr? || |rows.items| == 0 { return None; }
    var row := Find(rows.items, PageTeamTest(teamName));
    if row.None? { return None; }
    var table := PageTable(row.value);
    if !table.Arr? { return None; }
    r := ScanAliases(table.items, PageAliases(m));
  }

  /** The loop over the aliases, in alias order: the first alias whose cell parses wins. */
  method ScanAliases(cells: seq<Cell>, ks: seq<string>) returns (r: Option<real>)
    ensures r == FirstOf(AliasValues(cells, ks))
  {
    var i := 0;
    while i < |ks|
      invariant 0 <= i <= |ks|
      invariant FirstOf(AliasValues(cells, ks)) == FirstOf(AliasValues(cells, ks)[i..])
    {
      var cell := Find(cells, CellTest(ks[i]));
      if cell.Some? {
        var n := ToNumber(Coalesce(Coalesce(cell.value.val, cell.value.value), cell.value.v));
        if n.Some? {
          return n;
        }
      }
      assert AliasValues(cells, ks)[i..][1..] == AliasValues(cells, ks)[i + 1..];
      i := i + 1;
    }
    return None;
  }

  /** A value found comes from the first alias, in alias order, whose first labelled cell
      parses; every earlier alias has no labelled cell or an unreadable one. */
  lemma AliasOrderWins(cells: seq<Cell>, ks: seq<string>)
    ensures FirstOf(AliasValues(cells, ks)).Some? ==>
              exists i :: 0 <= i < |ks| && Find(cells, CellTest(ks[i])).Some?
                          && AliasValue(cells, ks[i]) == FirstOf(AliasValues(cells, ks))
                          && forall j :: 0 <= j < i ==> AliasValue(cells, ks[j]).None?
    ensures FirstOf(AliasValues(cells, ks)).None? <==> forall i :: 0 <= i < |ks| ==> AliasValue(cells, ks[i]).None?
  {
    var vs := AliasValues(cells, ks);
    FirstOfIsFirst(vs);
    if vs == [] {
    } else if FirstOf(vs).Some? {
      var i :| 0 <= i < |vs| && vs[i] == FirstOf(vs) && forall j :: 0 <= j < i ==> vs[j].None?;
      assert AliasValue(cells, ks[i]).Some?;
      assert forall j :: 0 <= j < i ==> AliasValue(cells, ks[j]) == vs[j];
    } else {
      assert forall i :: 0 <= i < |ks| ==> AliasValue(cells, ks[i]) == vs[i];
    }
  }

  /** Only the first cell with a given label is read: a later cell with the same label is
      never consulted, even when the first one does not parse. */
  lemma FirstLabelledCellOnly(cells: seq<Cell>, extra: Cell, k: string)
    requires Find(cells, CellTest(k)).Some?
    ensures AliasValue(cells + [extra], k) == AliasValue(cells, k)
  {
    FindOfConcat(cells, [extra], CellTest(k));
  }

  lemma {:induction false} FindOfConcat<T>(a: seq<T>, b: seq<T>, p: T -> bool)
    requires Find(a, p).Some?
    ensures Find(a + b, p) == Find(a, p)
  {
    if !p(a[0]) {
      assert (a + b)[1..] == a[1..] + b;
      FindOfConcat(a[1..], b, p);
    }
  }

  /** Aliases are compared case-insensitively, so the team name and each alias matter only
      up to lower-casing. */
  lemma MetricValueIgnoresCase(adv: Option<Advanced>, teamName: string, m: Metric)
    ensures MetricValue(adv, Lower(teamName), m) == MetricValue(adv, teamName, m)
  {
    LowerIdempotent(teamName);
    if adv.Some? && RowsOf(adv.value).Arr? {
      FindCongruent(RowsOf(adv.value).items, PageTeamTest(Lower(teamName)), PageTeamTest(teamName));
    }
  }

  /** Two predicates that agree on every element find the same element. */
  lemma {:induction false} FindCongruent<T>(s: seq<T>, p: T -> bool, q: T -> bool)
    requires forall x :: x in s ==> p(x) == q(x)
    ensures Find(s, p) == Find(s, q)
  {
    if |s| > 0 {
      assert s[0] in s;
      assert forall x :: x in s[1..] ==> x in s;
      FindCongruent(s[1..], p, q);
    }
  }

  lemma LowerIdempotent(s: string)
    ensures Lower(Lower(s)) == Lower(s)
  {
    assert forall i :: 0 <= i < |s| ==> LowerChar(LowerChar(s[i])) == LowerChar(s[i]);
  }

  /** A payload without statistics rows, without the team's row, or whose team row has a
      `table` (or `statistics`) that is not an array gives nothing for every metric. */
  lemma MetricValueMissing(adv: Advanced, teamName: string, m: Metric)
    requires || !RowsOf(adv).Arr?
             || (forall i :: 0 <= i < |RowsOf(adv).items| ==> !IsPageTeamRow(RowsOf(adv).items[i], teamName))
             || (Find(RowsOf(adv).items, PageTeamTest(teamName)).Some?
                 && !PageTable(Find(RowsOf(adv).items, PageTeamTest(teamName)).value).Arr?)
    ensures MetricValue(Some(adv), teamName, m).None?
  {
    if RowsOf(adv).Arr? {
      FindIsFirst(RowsOf(adv).items, PageTeamTest(teamName));
    }
  }

  // ---------------------------------------------------------------- fetchAdvsForList, buildSeriesFromAdvs

  /** The numeric fixture ids of the list, in order: `toRow(it).fixtureId` when it is a
      number (a text id is dropped by `Number.isFinite`). */
  function FixtureIds(list: seq<Option<Fixture>>): (ids: seq<real>)
    ensures |ids| <= |list|
  {
    if |list| == 0 then []
    else
      var id := Football.ToRow(list[|list| - 1]).fixtureId;
      FixtureIds(list[..|list| - 1]) + (if id.Some? && id.value.Num? then [id.value.x] else [])
  }

  /** The payloads fetched for a list: one slot per numeric id, in order. `fetch` stands for
      the request; `None` is a failed request or an empty answer. */
  function FetchedAdvs(list: seq<Option<Fixture>>, fetch: real -> Option<Advanced>): (advs: seq<Option<Advanced>>)
    ensures |advs| == |FixtureIds(list)| <= |list|
    ensures forall i :: 0 <= i < |advs| ==> advs[i] == fetch(FixtureIds(list)[i])
  {
    var ids := FixtureIds(list);
    seq(|ids|, i requires 0 <= i < |ids| => fetch(ids[i]))
  }

  /** One metric's series: a slot per payload, in payload order. */
  function Series(advs: seq<Option<Advanced>>, teamName: string, m: Metric): (s: seq<Option<real>>)
    ensures |s| == |advs|
  {
    seq(|advs|, i requires 0 <= i < |advs| => MetricValue(advs[i], teamName, m))
  }

  /** A list whose rows carry no numeric id fetches nothing, so every series is empty. */
  lemma NoIdsNoSeries(list: seq<Option<Fixture>>, fetch: real -> Option<Advanced>, teamName: string, m: Metric)
    requires forall i :: 0 <= i < |list| ==>
               var id := Football.ToRow(list[i]).fixtureId; !(id.Some? && id.value.Num?)
    ensures Series(FetchedAdvs(list, fetch), teamName, m) == []
  {
    NoIds(list);
  }

  lemma {:induction false} NoIds(list: seq<Option<Fixture>>)
    requires forall i :: 0 <= i < |list| ==>
               var id := Football.ToRow(list[i]).fixtureId; !(id.Some? && id.value.Num?)
    ensures FixtureIds(list) == []
  {
    if |list| > 0 {
      assert forall i :: 0 <= i < |list| - 1 ==> list[..|list| - 1][i] == list[i];
      NoIds(list[..|list| - 1]);
    }
  }

  /** A failed request leaves an empty slot in every series. */
  lemma FailedFetchIsGap(advs: seq<Option<Advanced>>, teamName: string, m: Metric, i: nat)
    requires i < |advs| && advs[i].None?
    ensures Series(advs, teamName, m)[i].None?
  {
  }

  // ---------------------------------------------------------------- aggregateScorersFromAdvs

  /** `adv.events.goals ?? adv.goals ?? []` */
  function GoalsOf(adv: Option<Advanced>): seq<GoalEvent> {
    if adv.None? then []
    else if adv.value.eventGoals.Some? then adv.value.eventGoals.value
    else adv.value.goals.GetOr([])
  }

  /** Every goal event of the payloads, payload by payload. */
  function AllGoals(advs: seq<Option<Advanced>>): seq<GoalEvent> {
    if |advs| == 0 then [] else AllGoals(advs[..|advs| - 1]) + GoalsOf(advs[|advs| - 1])
  }

  /** `same(a, b)`: equal once lower-cased, a missing side read as "". */
  predicate SameTeam(a: Option<string>, b: string) { Lower(a.GetOr("")) == Lower(b) }

  /** A goal counts when it is the team's, is not an own goal and names its scorer. */
  predicate Counted(g: GoalEvent, teamName: string) {
    SameTeam(g.team, teamName) && !Contains(Lower(g.detail.GetOr("")), "own goal") && Truthy(g.player)
  }

  /** The scorer of every counted goal, in event order. */
  function Scorers(gs: seq<GoalEvent>, teamName: string): (ps: seq<string>)
    ensures |ps| <= |gs|
  {
    if |gs| == 0 then []
    else
      var g := gs[|gs| - 1];
      Scorers(gs[..|gs| - 1], teamName) + (if Counted(g, teamName) then [g.player.value] else [])
  }

  function ScorerNames(advs: seq<Option<Advanced>>, teamName: string): seq<string> {
    Scorers(AllGoals(advs), teamName)
  }

  datatype ScorerRow = ScorerRow(player: string, goals: nat, pct: real)

  /** `total > 0 ? goals * 100 / total : 0` */
  function Pct(goals: nat, total: nat): real {
    if total > 0 then (goals * 100) as real / total as real else 0.0
  }

  /** One row per player of `order`, with that player's number of goals in `names`. */
  function RowsFor(order: seq<string>, names: seq<string>): (rows: seq<ScorerRow>)
    ensures |rows| == |order|
  {
    seq(|order|, i requires 0 <= i < |order| =>
          ScorerRow(order[i], multiset(names)[order[i]], Pct(multiset(names)[order[i]], |names|)))
  }

  /** The sort's comparator `b.goals - a.goals || b.pct - a.pct`, as "a may come first". */
  function ScorerLe(a: ScorerRow, b: ScorerRow): bool {
    a.goals > b.goals || (a.goals == b.goals && a.pct >= b.pct)
  }

  /** What `aggregateScorersFromAdvs` returns: a row per scorer in order of first goal, then
      stably sorted by goals and share, both descending. */
  function ScorerTable(advs: seq<Option<Advanced>>, teamName: string): seq<ScorerRow> {
    TableOf(ScorerNames(advs, teamName))
  }

  /** The sorted rows of the scorers in `names`, one per scorer in order of first goal. */
  function TableOf(names: seq<string>): seq<ScorerRow> {
    SortBy(RowsFor(Distinct(names), names), ScorerLe)
  }

  /** The tally state of the loop: `total` counted goals, the map's keys in insertion order
      and each key's count. */
  ghost predicate Tracks(counts: map<string, nat>, order: seq<string>, total: nat, names: seq<string>) {
    && total == |names|
    && order == Distinct(names)
    && counts == CountsOf(names)
  }

  /** The map the loop builds from the scorers in `names`, one goal at a time. */
  ghost function CountsOf(names: seq<string>): map<string, nat> {
    if |names| == 0 then map[]
    else
      var c := CountsOf(names[..|names| - 1]);
      var p := names[|names| - 1];
      c[p := (if p in c then c[p] else 0) + 1]
  }

  /** The map's keys are the scorers, and each holds that scorer's number of goals. */
  lemma {:induction false} CountsOfMeaning(names: seq<string>)
    ensures forall p :: p in CountsOf(names) <==> p in names
    ensures forall p :: p in CountsOf(names) ==> CountsOf(names)[p] == multiset(names)[p]
  {
    if |names| > 0 {
      var init := names[..|names| - 1];
      CountsOfMeaning(init);
      assert names == init + [names[|names| - 1]];
    }
  }

  lemma TrackGoal(counts: map<string, nat>, order: seq<string>, total: nat, names: seq<string>, p: string)
    requires Tracks(counts, order, total, names)
    ensures Tracks(counts[p := (if p in counts then counts[p] else 0) + 1],
                   if p in counts then order else order + [p], total + 1, names + [p])
  {
    assert (names + [p])[..|names|] == names;
    CountsOfMeaning(names);
  }

  /** The rows built from the loop's map: `Array.from(entries).map(...)`. */
  function RowsFrom(order: seq<string>, counts: map<string, nat>, total: nat): seq<ScorerRow>
    requires forall i :: 0 <= i < |order| ==> order[i] in counts
  {
    seq(|order|, i requires 0 <= i < |order| => ScorerRow(order[i], counts[order[i]], Pct(counts[order[i]], total)))
  }

  /** `aggregateScorersFromAdvs`: a map from scorer to goals and a running total, filled goal
      by goal, then turned into sorted rows. */
  method AggregateScorers(advs: seq<Option<Advanced>>, teamName: string) returns (rows: seq<ScorerRow>)
    ensures rows == ScorerTable(advs, teamName)
  {
    var counts: map<string, nat> := map[];
    var order: seq<string> := [];
    var total: nat := 0;
    ghost var names: seq<string> := [];
    var i := 0;
    while i < |advs|
      invariant 0 <= i <= |advs|
      invariant names == Scorers(AllGoals(advs[..i]), teamName)
      invariant Tracks(counts, order, total, names)
    {
      ghost var before := names;
      counts, order, total, names := TallyGoals(GoalsOf(advs[i]), teamName, counts, order, total, names);
      AllGoalsStep(advs[..i], advs[i]);
      assert advs[..i + 1] == advs[..i] + [advs[i]];
      ScorersConcat(AllGoals(advs[..i]), GoalsOf(advs[i]), teamName);
      i := i + 1;
    }
    assert advs[..i] == advs;
    RowsFromTracks(order, counts, total, names);
    rows := RowsFrom(order, counts, total);
    rows := SortBy(rows, ScorerLe);
  }

  /** The inner loop over one payload's goal events. */
  method TallyGoals(goals: seq<GoalEvent>, teamName: string, counts: map<string, nat>, order: seq<string>,
                    total: nat, ghost names: seq<string>)
    returns (counts': map<string, nat>, order': seq<string>, total': nat, ghost names': seq<string>)
    requires Tracks(counts, order, total, names)
    ensures names' == names + Scorers(goals, teamName)
    ensures Tracks(counts', order', total', names')
  {
    counts', order', total', names' := counts, order, total, names;
    var j := 0;
    while j < |goals|
      invariant 0 <= j <= |goals|
      invariant names' == names + Scorers(goals[..j], teamName)
      invariant Tracks(counts', order', total', names')
    {
      assert goals[..j + 1] == goals[..j] + [goals[j]];
      ScorersStep(goals[..j], goals[j], teamName);
      counts', order', total', names' := CountGoal(goals[j], teamName, counts', order', total', names');
      j := j + 1;
    }
    assert goals[..j] == goals;
  }

  /** One goal event of the loop: another team's goal, an own goal or one without a scorer
      is skipped; any other adds one to its scorer. */
  method CountGoal(g: GoalEvent, teamName: string, counts: map<string, nat>, order: seq<string>,
                   total: nat, ghost names: seq<string>)
    returns (counts': map<string, nat>, order': seq<string>, total': nat, ghost names': seq<string>)
    requires Tracks(counts, order, total, names)
    ensures names' == names + (if Counted(g, teamName) then [g.player.value] else [])
    ensures Tracks(counts', order', total', names')
  {
    var detail := Lower(g.detail.GetOr(""));
    if !SameTeam(g.team, teamName) || Contains(detail, "own goal") || !Truthy(g.player) {
      return counts, order, total, names;
    }
    counts', order', total', names' := AddGoal(counts, order, total, names, g.player.value);
  }

  /** `goalsByPlayer.set(player, (goalsByPlayer.get(player) ?? 0) + 1)` and `total += 1`;
      a new player's key goes to the end of the map's insertion order. */
  method AddGoal(counts: map<string, nat>, order: seq<string>, total: nat, ghost names: seq<string>, player: string)
    returns (counts': map<string, nat>, order': seq<string>, total': nat, ghost names': seq<string>)
    requires Tracks(counts, order, total, names)
    ensures names' == names + [player]
    ensures Tracks(counts', order', total', names')
  {
    TrackGoal(counts, order, total, names, player);
    order' := if player in counts then order else order + [player];
    counts' := counts[player := (if player in counts then counts[player] else 0) + 1];
    total' := total + 1;
    names' := names + [player];
  }

  lemma RowsFromTracks(order: seq<string>, counts: map<string, nat>, total: nat, names: seq<string>)
    requires Tracks(counts, order, total, names)
    ensures forall i :: 0 <= i < |order| ==> order[i] in counts
    ensures RowsFrom(order, counts, total) == RowsFor(Distinct(names), names)
  {
    DistinctProperties(names);
    CountsOfMeaning(names);
    assert forall i :: 0 <= i < |order| ==> order[i] in names;
  }

  lemma {:induction false} ScorersConcat(a: seq<GoalEvent>, b: seq<GoalEvent>, teamName: string)
    ensures Scorers(a + b, teamName) == Scorers(a, teamName) + Scorers(b, teamName)
  {
    if |b| == 0 {
      assert a + b == a;
    } else {
      var init, g := b[..|b| - 1], b[|b| - 1];
      var last := if Counted(g, teamName) then [g.player.value] else [];
      assert a + b == (a + init) + [g];
      assert b == init + [g];
      calc {
        Scorers(a + b, teamName);
        Scorers((a + init) + [g], teamName);
        { ScorersStep(a + init, g, teamName); }
        Scorers(a + init, teamName) + last;
        { ScorersConcat(a, init, teamName); }
        Scorers(a, teamName) + Scorers(init, teamName) + last;
        { ScorersStep(init, g, teamName); }
        Scorers(a, teamName) + Scorers(b, teamName);
      }
    }
  }

  // ---------------------------------------------------------------- properties of the scorer table

  lemma ScorerLeIsTotal()
    ensures TotalPreorder(ScorerLe)
  {
  }

  /** The table is sorted by goals, descending, and by share among equal goals; it is a
      permutation of the per-scorer rows. */
  lemma ScorerTableSorted(advs: seq<Option<Advanced>>, teamName: string)
    ensures var t := ScorerTable(advs, teamName);
            && SortedBy(t, ScorerLe)
            && (forall i, j :: 0 <= i < j < |t| ==> t[i].goals >= t[j].goals)
            && var names := ScorerNames(advs, teamName);
               multiset(t) == multiset(RowsFor(Distinct(names), names))
  {
    var names := ScorerNames(advs, teamName);
    ScorerLeIsTotal();
    SortByIsSorted(RowsFor(Distinct(names), names), ScorerLe);
  }

  predicate HasRowFor(t: seq<ScorerRow>, p: string) { exists i :: 0 <= i < |t| && t[i].player == p }

  /** Each scorer of a counted goal has exactly one row, which holds their number of counted
      goals (at least one) and their share of the total. */
  lemma ScorerRows(advs: seq<Option<Advanced>>, teamName: string)
    ensures var names := ScorerNames(advs, teamName);
            var t := ScorerTable(advs, teamName);
            && (forall p :: p in names <==> HasRowFor(t, p))
            && (forall i, j :: 0 <= i < j < |t| ==> t[i].player != t[j].player)
            && (forall r :: r in t ==> r.goals == multiset(names)[r.player] >= 1
                                       && r.pct == Pct(r.goals, |names|))
  {
    var names := ScorerNames(advs, teamName);
    var d := Distinct(names);
    DistinctProperties(names);
    RowsForFacts(d, names);
    PermutedRows(ScorerTable(advs, teamName), RowsFor(d, names));
  }

  /** The rows of a list of distinct scorers: one per scorer, each with its count. */
  lemma RowsForFacts(d: seq<string>, names: seq<string>)
    requires forall i, j :: 0 <= i < j < |d| ==> d[i] != d[j]
    requires forall x :: x in d <==> x in names
    ensures var rs := RowsFor(d, names);
            && (forall p :: p in names <==> HasRowFor(rs, p))
            && (forall i, j :: 0 <= i < j < |rs| ==> rs[i].player != rs[j].player)
            && (forall r :: r in rs ==> r.goals == multiset(names)[r.player] >= 1
                                        && r.pct == Pct(r.goals, |names|))
  {
    var rs := RowsFor(d, names);
    forall p | p in names ensures HasRowFor(rs, p) {
      var k :| 0 <= k < |d| && d[k] == p;
      assert rs[k].player == p;
    }
    forall r | r in rs ensures r.goals == multiset(names)[r.player] >= 1 && r.pct == Pct(r.goals, |names|) {
      var k :| 0 <= k < |rs| && rs[k] == r;
      assert d[k] in names;
    }
    forall p | HasRowFor(rs, p) ensures p in names {
      var i :| 0 <= i < |rs| && rs[i].player == p;
      assert d[i] in d;
    }
  }

  /** A permutation of rows with distinct players keeps who appears, with which row, and
      keeps the players distinct. */
  lemma PermutedRows(t: seq<ScorerRow>, rs: seq<ScorerRow>)
    requires multiset(t) == multiset(rs)
    requires forall i, j :: 0 <= i < j < |rs| ==> rs[i].player != rs[j].player
    ensures forall r :: r in t <==> r in rs
    ensures forall p :: HasRowFor(t, p) <==> HasRowFor(rs, p)
    ensures forall i, j :: 0 <= i < j < |t| ==> t[i].player != t[j].player
  {
    forall r ensures r in t <==> r in rs {
      assert r in t <==> r in multiset(t);
      assert r in rs <==> r in multiset(rs);
    }
    forall p | HasRowFor(t, p) ensures HasRowFor(rs, p) {
      var i :| 0 <= i < |t| && t[i].player == p;
      assert t[i] in rs;
    }
    forall p | HasRowFor(rs, p) ensures HasRowFor(t, p) {
      var i :| 0 <= i < |rs| && rs[i].player == p;
      assert rs[i] in t;
    }
    forall i, j | 0 <= i < j < |t| ensures t[i].player != t[j].player {
      if t[i].player == t[j].player {
        assert t[i] in rs && t[j] in rs;
        var a :| 0 <= a < |rs| && rs[a] == t[i];
        var b :| 0 <= b < |rs| && rs[b] == t[j];
        assert a == b;
        TwiceInMultiset(t, i, j);
        RowOnceInMultiset(rs, a);
        assert false;
      }
    }
  }

  lemma RowOnceInMultiset(rs: seq<ScorerRow>, a: nat)
    requires a < |rs| && forall i, j :: 0 <= i < j < |rs| ==> rs[i].player != rs[j].player
    ensures multiset(rs)[rs[a]] == 1
  {
    assert rs == rs[..a] + [rs[a]] + rs[a + 1..];
    assert rs[a] !in rs[..a] by {
      forall k | 0 <= k < a ensures rs[..a][k] != rs[a] { assert rs[..a][k] == rs[k]; }
    }
    assert rs[a] !in rs[a + 1..] by {
      var tail := rs[a + 1..];
      forall k | 0 <= k < |tail| ensures tail[k] != rs[a] { assert tail[k] == rs[a + 1 + k]; }
    }
  }

  function SumGoals(rs: seq<ScorerRow>): nat {
    if |rs| == 0 then 0 else SumGoals(rs[..|rs| - 1]) + rs[|rs| - 1].goals
  }

  /** The goals of the rows add up to the total of counted goals. */
  lemma ScorerTotal(advs: seq<Option<Advanced>>, teamName: string)
    ensures SumGoals(ScorerTable(advs, teamName)) == |ScorerNames(advs, teamName)|
  {
    var names := ScorerNames(advs, teamName);
    SumGoalsSorted(RowsFor(Distinct(names), names));
    SumRowsForDistinct(names);
  }

  lemma {:induction false} SumGoalsInsert(r: seq<ScorerRow>, x: ScorerRow)
    ensures SumGoals(Insert(r, x, ScorerLe)) == SumGoals(r) + x.goals
  {
    if |r| > 0 && ScorerLe(r[0], x) {
      SumGoalsInsert(r[1..], x);
      SumGoalsCons(r[0], r[1..]);
      SumGoalsCons(r[0], Insert(r[1..], x, ScorerLe));
      assert r == [r[0]] + r[1..];
    } else if |r| > 0 {
      SumGoalsCons(x, r);
    }
  }

  lemma {:induction false} SumGoalsCons(x: ScorerRow, r: seq<ScorerRow>)
    ensures SumGoals([x] + r) == x.goals + SumGoals(r)
  {
    if |r| > 0 {
      assert ([x] + r)[..|r|] == [x] + r[..|r| - 1];
      SumGoalsCons(x, r[..|r| - 1]);
    } else {
      assert [x] + r == [x];
    }
  }

  lemma {:induction false} SumGoalsSorted(s: seq<ScorerRow>)
    ensures SumGoals(SortBy(s, ScorerLe)) == SumGoals(s)
  {
    if |s| > 0 {
      SumGoalsSorted(s[..|s| - 1]);
      SumGoalsInsert(SortBy(s[..|s| - 1], ScorerLe), s[|s| - 1]);
    }
  }

  /** The counts of the distinct names add up to the number of names. */
  lemma {:induction false} SumRowsForDistinct(names: seq<string>)
    ensures SumGoals(RowsFor(Distinct(names), names)) == |names|
  {
    if |names| > 0 {
      var init := names[..|names| - 1];
      var p := names[|names| - 1];
      assert names == init + [p];
      SumRowsForDistinct(init);
      DistinctProperties(init);
      var d := Distinct(init);
      SumRowsForStep(d, init, p);
      if p !in init {
        assert Distinct(names) == d + [p];
        SumRowsForAppend(d, names, p);
        assert multiset(names)[p] == 1;
      }
    }
  }

  /** Adding one name raises the sum over `d` by one when the name is in `d` (once), and
      leaves it otherwise. */
  lemma {:induction false} SumRowsForStep(d: seq<string>, names: seq<string>, p: string)
    requires forall i, j :: 0 <= i < j < |d| ==> d[i] != d[j]
    ensures SumGoals(RowsFor(d, names + [p])) == SumGoals(RowsFor(d, names)) + (if p in d then 1 else 0)
  {
    if |d| > 0 {
      var init := d[..|d| - 1];
      SumRowsForStep(init, names, p);
      assert RowsFor(d, names + [p])[..|d| - 1] == RowsFor(init, names + [p]);
      assert RowsFor(d, names)[..|d| - 1] == RowsFor(init, names);
      assert p in d <==> p in init || p == d[|d| - 1];
      if p == d[|d| - 1] {
        assert p !in init by {
          forall k | 0 <= k < |init| ensures init[k] != p { assert init[k] == d[k]; }
        }
      }
    }
  }

  lemma SumRowsForAppend(d: seq<string>, names: seq<string>, p: string)
    ensures SumGoals(RowsFor(d + [p], names)) == SumGoals(RowsFor(d, names)) + multiset(names)[p]
  {
    assert RowsFor(d + [p], names)[..|d|] == RowsFor(d, names);
  }

  /** A goal that is not counted (another team's, an own goal, or one without a scorer)
      leaves the table as it is. */
  lemma UncountedGoalIgnored(advs: seq<Option<Advanced>>, g: GoalEvent, teamName: string)
    requires !Counted(g, teamName)
    ensures ScorerTable(advs + [Some(Advanced(Missing, Missing, Some([g]), None))], teamName) == ScorerTable(advs, teamName)
  {
    var extra := Some(Advanced(Missing, Missing, Some([g]), None));
    AllGoalsStep(advs, extra);
    assert GoalsOf(extra) == [g];
    ScorersStep(AllGoals(advs), g, teamName);
    assert ScorerNames(advs + [extra], teamName) == ScorerNames(advs, teamName);
  }

  lemma AllGoalsStep(advs: seq<Option<Advanced>>, adv: Option<Advanced>)
    ensures AllGoals(advs + [adv]) == AllGoals(advs) + GoalsOf(adv)
  {
    assert (advs + [adv])[..|advs|] == advs;
  }

  lemma ScorersStep(gs: seq<GoalEvent>, g: GoalEvent, teamName: string)
    ensures Scorers(gs + [g], teamName) == Scorers(gs, teamName) + (if Counted(g, teamName) then [g.player.value] else [])
  {
    assert (gs + [g])[..|gs|] == gs;
  }

  // ---------------------------------------------------------------- statusOf

  datatype Status = XI | Banc | Absent | Inconnu

  /** `p.player?.name ?? p.name` */
  function PlayerLabel(p: Player): Option<string> { p.playerName.Or(p.name) }

  predicate Lists(ps: seq<Player>, name: string) {
    exists i :: 0 <= i < |ps| && PlayerLabel(ps[i]) == Some(name)
  }

  function StartersOf(c: Side): seq<Player> { c.xi.Or(c.startXI).GetOr([]) }
  function BenchOf(c: Side): seq<Player> { c.bench.Or(c.substitutes).GetOr([]) }
  function OutOf(c: Side): seq<Player> { c.out.GetOr([]) }

  /** `statusOf`: the first list, in the order starters, bench, absentees, that names the
      player; "Inconnu" without a composition or when no list names them. */
  function StatusOf(name: string, comp: Option<Side>): (s: Status)
    ensures comp.None? ==> s == Inconnu
    ensures comp.Some? ==>
              && (s == XI <==> Lists(StartersOf(comp.value), name))
              && (s == Banc <==> !Lists(StartersOf(comp.value), name) && Lists(BenchOf(comp.value), name))
              && (s == Absent <==> !Lists(StartersOf(comp.value), name) && !Lists(BenchOf(comp.value), name)
                                   && Lists(OutOf(comp.value), name))
  {
    if comp.None? then Inconnu
    else
      var c := comp.value;
      if Lists(StartersOf(c), name) then XI
      else if Lists(BenchOf(c), name) then Banc
      else if Lists(OutOf(c), name) then Absent
      else Inconnu
  }

  datatype RecentScorer = RecentScorer(row: ScorerRow, status: Status)

  /** The scorer rows shown: each row with its player's status, order unchanged. */
  function WithStatus(rows: seq<ScorerRow>, comp: Option<Side>): (r: seq<RecentScorer>)
    ensures |r| == |rows|
    ensures forall i :: 0 <= i < |rows| ==> r[i].row == rows[i]
    // the status is that of the row's player in the composition, as `StatusOf` states it
    ensures forall i :: 0 <= i < |rows| ==> r[i].status == StatusOf(rows[i].player, comp)
  {
    seq(|rows|, i requires 0 <= i < |rows| => RecentScorer(rows[i], StatusOf(rows[i].player, comp)))
  }

  /** A player listed among the starters is "XI" whatever the other lists say. */
  lemma StarterWins(name: string, c: Side, i: nat)
    requires i < |StartersOf(c)| && PlayerLabel(StartersOf(c)[i]) == Some(name)
    ensures StatusOf(name, Some(c)) == XI
  {
  }
}
