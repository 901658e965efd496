/** Display helpers for fixture rows (src/utils/football.ts): the score text, the
    normalised row of a fixture in either layout, and the head-to-head tally. */
module Football {
  import opened Js
  import opened Seqs
  import opened Payloads
  import StatsExtractors

  /** `${home ?? 0}-${away ?? 0}` */
  function HalfText(h: Half): string {
    IntToString(h.home.GetOr(0)) + "-" + IntToString(h.away.GetOr(0))
  }

  predicate HasValue(h: Option<Half>) { h.Some? && (h.value.home.Some? || h.value.away.Some?) }

  /** `fmtScore`: a text score as it is; otherwise the full-time score when it has a side,
      else the half-time score when it has one, else "-". */
  function FmtScore(s: Score): (r: string)
    ensures s.ScoreText? ==> r == s.text
    ensures s.ScoreObject? && HasValue(s.obj.fulltime) ==> r == HalfText(s.obj.fulltime.value)
    ensures s.ScoreObject? && !HasValue(s.obj.fulltime) && HasValue(s.obj.halftime) ==> r == HalfText(s.obj.halftime.value)
    ensures !s.ScoreText? ==> (r == "-" <==> !(s.ScoreObject? && (HasValue(s.obj.fulltime) || HasValue(s.obj.halftime))))
  {
    match s
    case ScoreText(t) => t
    case NoScore => "-"
    case ScoreObject(o) =>
      if HasValue(o.fulltime) then HalfText(o.fulltime.value)
      else if HasValue(o.halftime) then HalfText(o.halftime.value)
      else "-"
  }

  datatype Row = Row(fixtureId: Option<Val>, date: string, homeTeam: string, awayTeam: string, score: string)

  const DefaultHome: string := "\U{00C9}quipe A"
  const DefaultAway: string := "\U{00C9}quipe B"

  /** The flat layout is used only when `date`, `homeTeam` and `awayTeam` are all non-empty. */
  predicate IsFlat(it: Option<Fixture>) {
    it.Some? && Truthy(it.value.date) && Truthy(it.value.homeTeam) && Truthy(it.value.awayTeam)
  }

  /** `fixture.date` with its first "T" turned into a space, cut to 16 characters. */
  function RawDate(d: Option<string>): (r: string)
    ensures |r| <= 16
    ensures !Truthy(d) ==> r == ""
    ensures Truthy(d) ==> |r| == if |d.value| <= 16 then |d.value| else 16
    ensures Truthy(d) && 'T' !in d.value ==> r == Take(d.value, 16)
  {
    if Truthy(d) then
      var t := ReplaceFirst(d.value, 'T', " ");
      ReplaceFirstByChar(d.value, 'T', ' ');
      if |t| <= 16 then t else t[..16]
    else ""
  }

  /** `toRow` */
  function ToRow(it: Option<Fixture>): (r: Row)
    ensures IsFlat(it) ==>
              r == Row(CoalesceAll([it.value.fixtureIdKey, it.value.id, it.value.fixtureIdSnake]),
                       it.value.date.value, it.value.homeTeam.value, it.value.awayTeam.value, FmtScore(it.value.score))
    ensures !IsFlat(it) && it.Some? ==>
              && r.fixtureId == CoalesceAll([it.value.fixtureObjId, it.value.id, it.value.fixtureIdSnake])
              && r.homeTeam == it.value.teamsHome.Or(it.value.teamHome).GetOr(DefaultHome)
              && r.awayTeam == it.value.teamsAway.Or(it.value.teamAway).GetOr(DefaultAway)
              && r.date == RawDate(it.value.fixtureDate)
              && r.score == FmtScore(it.value.score)
    ensures it.None? ==> r == Row(None, "", DefaultHome, DefaultAway, "-")
  {
    if IsFlat(it) then
      var f := it.value;
      Row(CoalesceAll([f.fixtureIdKey, f.id, f.fixtureIdSnake]), f.date.value, f.homeTeam.value, f.awayTeam.value,
          if f.score.ScoreText? then f.score.text else FmtScore(f.score))
    else if it.None? then
      Row(None, "", DefaultHome, DefaultAway, FmtScore(NoScore))
    else
      var f := it.value;
      Row(CoalesceAll([f.fixtureObjId, f.id, f.fixtureIdSnake]),
          RawDate(f.fixtureDate),
          f.teamsHome.Or(f.teamHome).GetOr(DefaultHome),
          f.teamsAway.Or(f.teamAway).GetOr(DefaultAway),
          FmtScore(f.score))
  }

  // ---------------------------------------------------------------- compactH2H

  datatype H2HTally = H2HTally(homeWin: nat, draw: nat, awayWin: nat)

  /** `Number(goals.home ?? 0)` for one entry; `None` is NaN. */
  function GoalOf(m: Option<Fixture>, v: Venue): Option<real> {
    var raw := if m.Some? && m.value.goals.Some? then
                 (if v == Home then m.value.goals.value.home else m.value.goals.value.away)
               else None;
    NumberOf(Coalesce(raw, Some(Num(0.0))))
  }

  /** One meeting added to a tally: skipped when a side's goals are not a number, else a
      draw, a home win or an away win. */
  function Count(t: H2HTally, m: Option<Fixture>): (u: H2HTally)
    ensures u.homeWin + u.draw + u.awayWin <= t.homeWin + t.draw + t.awayWin + 1
  {
    var gh := GoalOf(m, Home);
    var ga := GoalOf(m, Away);
    if gh.None? || ga.None? then t
    else if gh.value == ga.value then t.(draw := t.draw + 1)
    else if gh.value > ga.value then t.(homeWin := t.homeWin + 1)
    else t.(awayWin := t.awayWin + 1)
  }

  /** The tally of the entries of `ms`, skipping those whose goals are not numbers. */
  function Tally(ms: seq<Option<Fixture>>): (t: H2HTally)
    ensures t.homeWin + t.draw + t.awayWin <= |ms|
  {
    if |ms| == 0 then H2HTally(0, 0, 0) else Count(Tally(ms[..|ms| - 1]), ms[|ms| - 1])
  }

  lemma TallyStep(w: seq<Option<Fixture>>, i: nat)
    requires i < |w|
    ensures Tally(w[..i + 1]) == Count(Tally(w[..i]), w[i])
  {
    assert w[..i + 1][..i] == w[..i];
  }

  lemma CountByGoals(t: H2HTally, m: Option<Fixture>, gh: Option<real>, ga: Option<real>)
    requires gh == GoalOf(m, Home) && ga == GoalOf(m, Away)
    ensures gh.None? || ga.None? ==> Count(t, m) == t
    ensures gh.Some? && ga.Some? && gh.value == ga.value ==> Count(t, m) == t.(draw := t.draw + 1)
    ensures gh.Some? && ga.Some? && gh.value > ga.value ==> Count(t, m) == t.(homeWin := t.homeWin + 1)
    ensures gh.Some? && ga.Some? && gh.value < ga.value ==> Count(t, m) == t.(awayWin := t.awayWin + 1)
  {
  }

  /** `compactH2H`: a tally of the first ten meetings, or nothing for a missing or empty list. */
  method CompactH2H(list: Field<Option<Fixture>>) returns (r: Option<H2HTally>)
    ensures r.None? <==> !list.Arr? || |list.items| == 0
    ensures r.Some? ==> r.value == Tally(Take(list.items, 10))
    ensures r.Some? ==> r.value.homeWin + r.value.draw + r.value.awayWin <= |Take(list.items, 10)|
    // each column counts the meetings of the window whose score gives that result
    ensures r.Some? ==> && r.value.homeWin == |Filter(Take(list.items, 10), HasResult(HomeWin))|
                        && r.value.draw == |Filter(Take(list.items, 10), HasResult(Drawn))|
                        && r.value.awayWin == |Filter(Take(list.items, 10), HasResult(AwayWin))|
  {
    if !list.Arr? || |list.items| == 0 { return None; }
    TallyColumns(Take(list.items, 10));
    var t := TallyWindow(Take(list.items, 10));
    return Some(t);
  }

  /** The loop of `compactH2H` over the window, incrementing one counter per meeting. */
  method TallyWindow(window: seq<Option<Fixture>>) returns (t: H2HTally)
    ensures t == Tally(window)
  {
    var homeWin, draw, awayWin := 0, 0, 0;
    var i := 0;
    while i < |window|
      invariant 0 <= i <= |window|
      invariant Tally(window[..i]) == H2HTally(homeWin, draw, awayWin)
    {
      TallyStep(window, i);
      ghost var before := H2HTally(homeWin, draw, awayWin);
      var gh := GoalOf(window[i], Home);
      var ga := GoalOf(window[i], Away);
      CountByGoals(before, window[i], gh, ga);
      if gh.None? || ga.None? {
        i := i + 1;
        continue;
      }
      if gh.value == ga.value {
        draw := draw + 1;
      } else if gh.value > ga.value {
        homeWin := homeWin + 1;
      } else {
        awayWin := awayWin + 1;
      }
      assert H2HTally(homeWin, draw, awayWin) == Count(before, window[i]);
      i := i + 1;
    }
    assert window[..i] == window;
    return H2HTally(homeWin, draw, awayWin);
  }

  // ---------------------------------------------------------------- lemmas

  /** What a meeting's score says, when both goals read as numbers. */
  datatype MeetingResult = HomeWin | Drawn | AwayWin

  function ResultOf(m: Option<Fixture>): Option<MeetingResult> {
    var gh, ga := GoalOf(m, Home), GoalOf(m, Away);
    if gh.None? || ga.None? then None
    else if gh.value > ga.value then Some(HomeWin)
    else if gh.value < ga.value then Some(AwayWin)
    else Some(Drawn)
  }

  function HasResult(r: MeetingResult): Option<Fixture> -> bool {
    m => ResultOf(m) == Some(r)
  }

  /** Each column of the tally is the number of meetings whose score gives that result:
      more home goals a home win, equal goals a draw, fewer an away win. */
  lemma {:induction false} TallyColumns(ms: seq<Option<Fixture>>)
    ensures Tally(ms).homeWin == |Filter(ms, HasResult(HomeWin))|
    ensures Tally(ms).draw == |Filter(ms, HasResult(Drawn))|
    ensures Tally(ms).awayWin == |Filter(ms, HasResult(AwayWin))|
  {
    if |ms| > 0 {
      TallyColumns(ms[..|ms| - 1]);
    }
  }

  /** Every meeting whose goals read as numbers is counted exactly once (in the column
      `TallyColumns` names); a meeting without goals counts as a draw. */
  lemma {:induction false} TallyCountsParsed(ms: seq<Option<Fixture>>)
    ensures var t := Tally(ms);
            t.homeWin + t.draw + t.awayWin == |ms| - Skipped(ms)
  {
    if |ms| > 0 {
      TallyCountsParsed(ms[..|ms| - 1]);
    }
  }

  /** The number of entries whose goals do not read as numbers. */
  function Skipped(ms: seq<Option<Fixture>>): (k: nat)
    ensures k <= |ms|
  {
    if |ms| == 0 then 0
    else Skipped(ms[..|ms| - 1]) + (if GoalOf(ms[|ms| - 1], Home).None? || GoalOf(ms[|ms| - 1], Away).None? then 1 else 0)
  }

  /** A meeting that carries no goals at all reads 0-0 and so counts as a draw. */
  lemma MissingGoalsDraw(ms: seq<Option<Fixture>>, m: Option<Fixture>)
    requires m.None? || m.value.goals.None?
    ensures Tally(ms + [m]) == Tally(ms).(draw := Tally(ms).draw + 1)
  {
    assert (ms + [m])[..|ms|] == ms;
  }

  /** For a raw row whose `fixture.date` is an ISO timestamp, the date shown is the day and
      the minute, separated by a space. */
  lemma IsoDate(d: string)
    requires |d| >= 16 && d[10] == 'T' && forall i :: 0 <= i < 10 ==> d[i] != 'T'
    ensures RawDate(Some(d)) == d[..10] + " " + d[11..16]
  {
    ReplaceFirstAt(d, 'T', " ", 10);
    var t := ReplaceFirst(d, 'T', " ");
    assert t == d[..10] + " " + d[11..];
  }

  lemma {:induction false} ReplaceFirstAt(s: string, c: char, r: string, k: nat)
    requires k < |s| && s[k] == c && forall i :: 0 <= i < k ==> s[i] != c
    ensures ReplaceFirst(s, c, r) == s[..k] + r + s[k + 1..]
  {
    if k > 0 {
      ReplaceFirstAt(s[1..], c, r, k - 1);
      assert s[1..][..k - 1] == s[1..k];
      assert s[..k] == [s[0]] + s[1..k];
    }
  }

  /** For a raw row, `fixtureIdOf` and the id of `toRow` agree whenever `match_id` is
      unset and `toRow` finds an id. */
  lemma FixtureIdAgreesWithRow(f: Fixture)
    requires !IsFlat(Some(f)) && IsNullish(f.matchId)
    requires !IsNullish(ToRow(Some(f)).fixtureId)
    ensures Some(StatsExtractors.FixtureIdOf(Some(f))) == ToRow(Some(f)).fixtureId
  {
    var ids := StatsExtractors.IdCandidates(f);
    assert ids[1..][1..][1..][1..] == [f.gameId];
    assert CoalesceAll(ids[1..][1..][1..]) == Coalesce(f.fixtureIdSnake, f.gameId);
    assert CoalesceAll(ids[1..][1..]) == CoalesceAll(ids[1..][1..][1..]);
    assert CoalesceAll(ids) == Coalesce(f.fixtureObjId, Coalesce(f.id, Coalesce(f.fixtureIdSnake, f.gameId)));
    var three := [f.fixtureObjId, f.id, f.fixtureIdSnake];
    assert three[1..][1..] == [f.fixtureIdSnake];
    assert CoalesceAll(three[1..]) == Coalesce(f.id, f.fixtureIdSnake);
  }
}
