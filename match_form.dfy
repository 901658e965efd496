/** The form calculator of the match page (src/pages/MatchAnalysis.tsx, top-level
    helpers): goals read from a fixture row, and the W/D/L summary of a team over the
    first five usable rows of a list, overall or at one venue. */
module MatchForm {
  import opened Js
  import opened Seqs
  import opened Payloads
  import opened StatsExtractors
  import Football
  import H2HVenueRule

  // ---------------------------------------------------------------- _extractGoals

  datatype Goals = Goals(gh: Option<real>, ga: Option<real>)

  /** `/^\d+\s*-\s*\d+$/`: digits, optional white space, one dash, optional white space,
      digits. */
  predicate IsScoreText(s: string) {
    var k := IndexOf(s, '-');
    k < |s| && ScoreSides(s[..k], s[k + 1..])
  }

  predicate ScoreSides(left: string, right: string) {
    var l := TrimEnd(left);
    var r := TrimStart(right);
    |l| > 0 && AllDigits(l) && |r| > 0 && AllDigits(r)
  }

  /** `Number(part.trim())` for each side of `s.split("-")`. */
  function ScoreTextGoals(s: string): Goals
    requires IsScoreText(s)
  {
    var k := IndexOf(s, '-');
    Goals(JsNumber(Trim(s[..k])), JsNumber(Trim(s[k + 1..])))
  }

  /** The fields `home ?? Home ?? h ?? H` and `away ?? Away ?? a ?? A`, read through `Number`. */
  function FieldGoals(g: GoalFields): Goals {
    Goals(NumberOf(CoalesceAll([g.home, g.homeCap, g.h, g.hCap])),
          NumberOf(CoalesceAll([g.away, g.awayCap, g.a, g.aCap])))
  }

  /** `_extractGoals`: a "d-d" score text first, then the goal fields of `goals || score`;
      a side that is not a number is missing. `score.fulltime` is never read. */
  function ExtractGoals(it: Option<Fixture>): (g: Goals)
    ensures it.Some? && it.value.score.ScoreText? && IsScoreText(it.value.score.text) ==>
              g == ScoreTextGoals(it.value.score.text)
    ensures it.None? ==> g == Goals(None, None)
  {
    if it.Some? && it.value.score.ScoreText? && IsScoreText(it.value.score.text) then
      ScoreTextGoals(it.value.score.text)
    else if it.None? then Goals(None, None)
    else
      var f := it.value;
      if f.goals.Some? then FieldGoals(f.goals.value)
      else match f.score
        case ScoreObject(o) => FieldGoals(o.goals)
        case _ => Goals(None, None)
  }

  // ---------------------------------------------------------------- computeCompactFormFromLast5

  /** The goals for and against the team in one row, or nothing when the row is skipped:
      a team name missing, a side of the score missing, or the team playing neither side.
      Home is checked first. */
  function CountedRow(it: Option<Fixture>, team: string): Option<(real, real)>
  {
    var t := ExtractTeams(it);
    if !Truthy(t.homeName) || !Truthy(t.awayName) then None
    else
      var g := ExtractGoals(it);
      if g.gh.None? || g.ga.None? then None
      else if t.homeName.value == team then Some((g.gh.value, g.ga.value))
      else if t.awayName.value == team then Some((g.ga.value, g.gh.value))
      else None
  }

  /** The (goals for, goals against) of every row that counts, in input order. */
  function Outcomes(items: seq<Option<Fixture>>, team: string): (os: seq<(real, real)>)
    ensures |os| <= |items|
  {
    if |items| == 0 then []
    else
      var p := CountedRow(items[|items| - 1], team);
      Outcomes(items[..|items| - 1], team) + (if p.Some? then [p.value] else [])
  }

  function Letter(o: (real, real)): char {
    if o.0 > o.1 then 'W' else if o.0 == o.1 then 'D' else 'L'
  }

  function Letters(os: seq<(real, real)>): (s: string)
    ensures |s| == |os|
  {
    if |os| == 0 then "" else Letters(os[..|os| - 1]) + [Letter(os[|os| - 1])]
  }

  function CountLetter(os: seq<(real, real)>, c: char): nat {
    if |os| == 0 then 0
    else CountLetter(os[..|os| - 1], c) + (if Letter(os[|os| - 1]) == c then 1 else 0)
  }

  function SumFor(os: seq<(real, real)>): real {
    if |os| == 0 then 0.0 else SumFor(os[..|os| - 1]) + os[|os| - 1].0
  }

  function SumAgainst(os: seq<(real, real)>): real {
    if |os| == 0 then 0.0 else SumAgainst(os[..|os| - 1]) + os[|os| - 1].1
  }

  datatype CompactForm = CompactForm(n: nat, win: nat, draw: nat, loss: nat, gfAvg: real, gaAvg: real, letters: string)

  /** The summary of the counted rows, or nothing when no row counts. */
  function FormOf(os: seq<(real, real)>): Option<CompactForm> {
    if |os| == 0 then None
    else Some(CompactForm(|os|, CountLetter(os, 'W'), CountLetter(os, 'D'), CountLetter(os, 'L'),
                          Round2(SumFor(os) / |os| as real), Round2(SumAgainst(os) / |os| as real), Letters(os)))
  }

  const FormWindow: nat := 5

  /** What `computeCompactFormFromLast5` returns. */
  function CompactFormOf(list: Field<Option<Fixture>>, team: Option<string>): Option<CompactForm> {
    if !list.Arr? || !Truthy(team) then None
    else FormOf(Outcomes(Take(list.items, FormWindow), team.value))
  }

  /** `computeCompactFormFromLast5`: one pass over the first five rows, counting the rows
      that resolve, then the averages. */
  method ComputeCompactForm(list: Field<Option<Fixture>>, team: Option<string>) returns (r: Option<CompactForm>)
    ensures r == CompactFormOf(list, team)
  {
    if !list.Arr? || !Truthy(team) { return None; }
    ghost var os := Outcomes(Take(list.items, FormWindow), team.value);
    var n, win, draw, loss, gfSum, gaSum, letters := SummariseWindow(Take(list.items, FormWindow), team.value);
    if n == 0 { return None; }
    SummaryIsForm(os, n, win, draw, loss, gfSum, gaSum, letters);
    return Some(CompactForm(n, win, draw, loss, Round2(gfSum / n as real), Round2(gaSum / n as real), letters));
  }

  /** The loop of `computeCompactFormFromLast5`: its counters, sums and letters after the
      rows of `window`. */
  method SummariseWindow(window: seq<Option<Fixture>>, teamName: string)
    returns (n: nat, win: nat, draw: nat, loss: nat, gfSum: real, gaSum: real, letters: string)
    ensures Summarises(Outcomes(window, teamName), n, win, draw, loss, gfSum, gaSum, letters)
  {
    n, win, draw, loss := 0, 0, 0, 0;
    gfSum, gaSum := 0.0, 0.0;
    letters := "";
    var i := 0;
    ghost var os: seq<(real, real)> := [];
    while i < |window|
      invariant 0 <= i <= |window|
      invariant os == Outcomes(window[..i], teamName)
      invariant Summarises(os, n, win, draw, loss, gfSum, gaSum, letters)
    {
      var row := ReadRow(window[i], teamName);
      OutcomesStep(window, i, teamName, row);
      if row.Some? {
        n, win, draw, loss, gfSum, gaSum, letters := AddRow(n, win, draw, loss, gfSum, gaSum, letters, os, row.value);
        os := os + [row.value];
      }
      i := i + 1;
    }
    assert window[..i] == window;
  }

  lemma SummaryIsForm(os: seq<(real, real)>, n: nat, win: nat, draw: nat, loss: nat,
                      gfSum: real, gaSum: real, letters: string)
    requires Summarises(os, n, win, draw, loss, gfSum, gaSum, letters) && n > 0
    ensures FormOf(os) == Some(CompactForm(n, win, draw, loss, Round2(gfSum / n as real), Round2(gaSum / n as real), letters))
  {
  }

  /** The loop's counters are the counts, sums and letters of the outcomes read so far. */
  ghost predicate Summarises(os: seq<(real, real)>, n: nat, win: nat, draw: nat, loss: nat,
                             gfSum: real, gaSum: real, letters: string) {
    && n == |os| && win == CountLetter(os, 'W') && draw == CountLetter(os, 'D')
    && loss == CountLetter(os, 'L') && gfSum == SumFor(os) && gaSum == SumAgainst(os)
    && letters == Letters(os)
  }

  /** One counted row: `n++`, the goal sums, and the win, draw or loss with its letter. */
  method AddRow(n: nat, win: nat, draw: nat, loss: nat, gfSum: real, gaSum: real, letters: string,
                ghost os: seq<(real, real)>, o: (real, real))
    returns (n': nat, win': nat, draw': nat, loss': nat, gfSum': real, gaSum': real, letters': string)
    requires Summarises(os, n, win, draw, loss, gfSum, gaSum, letters)
    ensures Summarises(os + [o], n', win', draw', loss', gfSum', gaSum', letters')
  {
    var (gf, gaMe) := o;
    ExtendOutcomes(os, o);
    n', win', draw', loss', gfSum', gaSum', letters' := n + 1, win, draw, loss, gfSum + gf, gaSum + gaMe, letters;
    if gf > gaMe { win' := win + 1; letters' := letters + "W"; }
    else if gf == gaMe { draw' := draw + 1; letters' := letters + "D"; }
    else { loss' := loss + 1; letters' := letters + "L"; }
  }

  /** The checks that skip a row (`continue`): both names, both goals, and the team on one
      side, home first; the goals for and against otherwise. */
  method ReadRow(it: Option<Fixture>, teamName: string) returns (r: Option<(real, real)>)
    ensures r == CountedRow(it, teamName)
  {
    var t := ExtractTeams(it);
    if !Truthy(t.homeName) || !Truthy(t.awayName) { return None; }
    var g := ExtractGoals(it);
    if g.gh.None? || g.ga.None? { return None; }
    if t.homeName.value == teamName { return Some((g.gh.value, g.ga.value)); }
    if t.awayName.value == teamName { return Some((g.ga.value, g.gh.value)); }
    return None;
  }

  lemma ExtendOutcomes(os: seq<(real, real)>, o: (real, real))
    ensures var os' := os + [o];
            && |os'| == |os| + 1
            && CountLetter(os', 'W') == CountLetter(os, 'W') + (if o.0 > o.1 then 1 else 0)
            && CountLetter(os', 'D') == CountLetter(os, 'D') + (if o.0 == o.1 then 1 else 0)
            && CountLetter(os', 'L') == CountLetter(os, 'L') + (if o.0 < o.1 then 1 else 0)
            && SumFor(os') == SumFor(os) + o.0 && SumAgainst(os') == SumAgainst(os) + o.1
            && Letters(os') == Letters(os) + [Letter(o)]
  {
    assert (os + [o])[..|os|] == os;
  }

  lemma OutcomesStep(w: seq<Option<Fixture>>, i: nat, team: string, row: Option<(real, real)>)
    requires i < |w| && row == CountedRow(w[i], team)
    ensures Outcomes(w[..i + 1], team) == Outcomes(w[..i], team) + (if row.Some? then [row.value] else [])
  {
    assert w[..i + 1][..i] == w[..i];
  }

  // ---------------------------------------------------------------- computeVenueFormFromList

  /** The team held the venue in this row: its home (resp. away) name is the team. */
  predicate HeldVenue(it: Option<Fixture>, team: string, venue: Venue) {
    if venue == Home then ExtractTeams(it).homeName == Some(team) else ExtractTeams(it).awayName == Some(team)
  }

  function VenueTest(team: string, venue: Venue): Option<Fixture> -> bool {
    it => HeldVenue(it, team, venue)
  }

  function VenueFiltered(items: seq<Option<Fixture>>, team: string, venue: Venue): seq<Option<Fixture>> {
    Filter(items, VenueTest(team, venue))
  }

  /** What `computeVenueFormFromList` returns: the form over the rows where the team held
      the venue, the five-row window applied after filtering. */
  function VenueFormOf(list: Field<Option<Fixture>>, team: Option<string>, venue: Venue): Option<CompactForm> {
    if !list.Arr? || !Truthy(team) then None
    else CompactFormOf(Arr(VenueFiltered(list.items, team.value, venue)), team)
  }

  /** `computeVenueFormFromList` */
  method ComputeVenueForm(list: Field<Option<Fixture>>, team: Option<string>, venue: Venue) returns (r: Option<CompactForm>)
    ensures r == VenueFormOf(list, team, venue)
    ensures r.Some? ==> r.value.n <= FormWindow
  {
    if !list.Arr? || !Truthy(team) { return None; }
    var filtered := VenueFiltered(list.items, team.value, venue);
    r := ComputeCompactForm(Arr(filtered), team);
  }

  // ---------------------------------------------------------------- lemmas

  /** The counts add up, the letters spell the outcomes in order, and each letter is
      counted in its own column. */
  lemma {:induction false} FormCounts(os: seq<(real, real)>)
    ensures CountLetter(os, 'W') + CountLetter(os, 'D') + CountLetter(os, 'L') == |os|
    ensures forall i :: 0 <= i < |os| ==> Letters(os)[i] == Letter(os[i])
    ensures forall c :: CountLetter(os, c) == multiset(Letters(os))[c]
  {
    if |os| > 0 {
      var init := os[..|os| - 1];
      FormCounts(init);
      assert Letters(os) == Letters(init) + [Letter(os[|os| - 1])];
      forall i | 0 <= i < |os| ensures Letters(os)[i] == Letter(os[i]) {
        if i < |os| - 1 { assert os[i] == init[i]; }
      }
    }
  }

  /** A row is W exactly when the team scored more, D when as many, L otherwise. */
  lemma LetterMeaning(o: (real, real))
    ensures Letter(o) == 'W' <==> o.0 > o.1
    ensures Letter(o) == 'D' <==> o.0 == o.1
    ensures Letter(o) == 'L' <==> o.0 < o.1
  {
  }

  /** Rows are counted in input order: the outcomes of two lists joined are the outcomes of
      each, joined. */
  lemma {:induction false} OutcomesOfConcat(a: seq<Option<Fixture>>, b: seq<Option<Fixture>>, team: string)
    ensures Outcomes(a + b, team) == Outcomes(a, team) + Outcomes(b, team)
  {
    if |b| > 0 {
      assert (a + b)[..|a + b| - 1] == a + b[..|b| - 1];
      OutcomesOfConcat(a, b[..|b| - 1], team);
    } else {
      assert a + b == a;
    }
  }

  /** The summary covers at most five rows. */
  lemma FormWindowBound(list: Field<Option<Fixture>>, team: Option<string>)
    ensures CompactFormOf(list, team).Some? ==> CompactFormOf(list, team).value.n <= FormWindow
  {
  }

  /** Rows beyond the fifth never change the summary. */
  lemma FormWindowExtension(list: Field<Option<Fixture>>, team: Option<string>, more: seq<Option<Fixture>>)
    requires list.Arr? && |list.items| >= FormWindow
    ensures CompactFormOf(Arr(list.items + more), team) == CompactFormOf(list, team)
  {
    assert Take(list.items + more, FormWindow) == Take(list.items, FormWindow);
  }

  /** The form is missing for a list that is not an array, a missing or empty team name, or
      when no row of the window counts. */
  lemma FormMissing(list: Field<Option<Fixture>>, team: Option<string>)
    ensures CompactFormOf(list, team).None? <==>
              !list.Arr? || !Truthy(team) || forall i :: 0 <= i < |Take(list.items, FormWindow)| ==>
                                                CountedRow(Take(list.items, FormWindow)[i], team.value).None?
  {
    if list.Arr? && Truthy(team) {
      OutcomesEmpty(Take(list.items, FormWindow), team.value);
    }
  }

  lemma {:induction false} OutcomesEmpty(items: seq<Option<Fixture>>, team: string)
    ensures |Outcomes(items, team)| == 0 <==> forall i :: 0 <= i < |items| ==> CountedRow(items[i], team).None?
  {
    if |items| > 0 {
      OutcomesEmpty(items[..|items| - 1], team);
      assert forall i :: 0 <= i < |items| - 1 ==> items[..|items| - 1][i] == items[i];
    }
  }

  /** In a venue form every counted row is one where the team held that venue, so for the
      home venue the goals for are the home goals. */
  lemma VenueRowsHeldVenue(items: seq<Option<Fixture>>, team: string, venue: Venue)
    ensures forall it :: it in VenueFiltered(items, team, venue) ==> it in items && HeldVenue(it, team, venue)
  {
    FilterMembers(items, VenueTest(team, venue));
    forall it | it in VenueFiltered(items, team, venue) ensures it in items && HeldVenue(it, team, venue) {
      assert VenueTest(team, venue)(it);
    }
  }

  /** Filtering the head-to-head list by venue before computing the venue form, as the page
      does, changes nothing. */
  lemma VenuePrefilterRedundant(items: seq<Option<Fixture>>, team: string, venue: Venue)
    ensures VenueFiltered(VenueFiltered(items, team, venue), team, venue) == VenueFiltered(items, team, venue)
  {
    FilterIdempotent(items, VenueTest(team, venue));
  }

  /** A score text written as `fmtScore` writes two non-negative counts reads back as those
      counts. */
  lemma ScoreTextRoundTrip(f: Fixture, a: nat, b: nat)
    requires f.score == ScoreText(Football.HalfText(Half(Some(a), Some(b))))
    ensures ExtractGoals(Some(f)) == Goals(Some(a as real), Some(b as real))
  {
    var da := NatToString(a);
    var db := NatToString(b);
    assert f.score.text == da + "-" + db;
    DigitsScoreText(da, db);
    NatToStringRoundTrip(a);
    NatToStringRoundTrip(b);
  }

  /** Two digit strings joined by a dash match the score pattern and split back apart. */
  lemma DigitsScoreText(da: string, db: string)
    requires AllDigits(da) && AllDigits(db) && |da| > 0 && |db| > 0
    ensures IsScoreText(da + "-" + db)
    ensures ScoreTextGoals(da + "-" + db) == Goals(JsNumber(da), JsNumber(db))
  {
    var s := da + "-" + db;
    DashAfterDigits(da, db);
    assert s[..|da|] == da && s[|da| + 1..] == db;
    DigitsTrimSides(da, db);
    assert ScoreSides(da, db);
    TrimOfDigits(da);
    TrimOfDigits(db);
  }

  lemma {:induction false} NoDashInDigits(d: string)
    requires AllDigits(d)
    ensures IndexOf(d, '-') == |d|
  {
    if |d| > 0 {
      assert IsDigit(d[0]);
      assert AllDigits(d[1..]) by {
        forall i | 0 <= i < |d| - 1 ensures IsDigit(d[1..][i]) { assert d[1..][i] == d[i + 1]; }
      }
      NoDashInDigits(d[1..]);
    }
  }

  lemma {:induction false} DashAfterDigits(da: string, db: string)
    requires AllDigits(da)
    ensures IndexOf(da + "-" + db, '-') == |da|
  {
    if |da| > 0 {
      assert IsDigit(da[0]);
      assert AllDigits(da[1..]) by {
        forall i | 0 <= i < |da| - 1 ensures IsDigit(da[1..][i]) { assert da[1..][i] == da[i + 1]; }
      }
      DashAfterDigits(da[1..], db);
      assert (da + "-" + db)[1..] == da[1..] + "-" + db;
    } else {
      assert (da + "-" + db)[0] == '-';
    }
  }

  lemma DigitsTrimSides(da: string, db: string)
    requires AllDigits(da) && AllDigits(db) && |da| > 0 && |db| > 0
    ensures TrimEnd(da) == da && TrimStart(db) == db
  {
    assert !IsWs(da[|da| - 1]);
    assert !IsWs(db[0]);
  }

  /** `_extractGoals` never reads `score.fulltime` or `score.halftime`: only the goal fields. */
  lemma GoalsIgnoreScoreParts(f: Fixture, o: ScoreObj, ft: Option<Half>, ht: Option<Half>)
    requires f.score == ScoreObject(o)
    ensures ExtractGoals(Some(f)) == ExtractGoals(Some(f.(score := ScoreObject(o.(fulltime := ft, halftime := ht)))))
  {
  }

  // ---------------------------------------------------------------- into the H2H rule

  /** The page hands a venue form to the H2H rule with every count present. */
  function ToH2HForm(f: CompactForm): H2HVenueRule.H2HForm {
    H2HVenueRule.H2HForm(Some(f.n), Some(f.win), Some(f.draw), Some(f.loss), Some(f.gfAvg), Some(f.gaAvg))
  }

  /** A computed form is a perfect streak for the rule's default threshold exactly when it
      covers at least three rows, all of them wins. */
  lemma PerfectFormIsAllWins(os: seq<(real, real)>)
    requires |os| > 0
    ensures H2HVenueRule.Perfect(Some(ToH2HForm(FormOf(os).value)), H2HVenueRule.DefaultMinN) <==>
              |os| >= 3 && forall i :: 0 <= i < |os| ==> Letters(os)[i] == 'W'
  {
    var f := FormOf(os).value;
    assert f.n == |os| && f.win == CountLetter(os, 'W') && f.draw == CountLetter(os, 'D') && f.loss == CountLetter(os, 'L');
    assert f.letters == Letters(os);
    FormCounts(os);
    AllWinsCount(os);
  }

  lemma {:induction false} AllWinsCount(os: seq<(real, real)>)
    ensures CountLetter(os, 'W') == |os| <==> forall i :: 0 <= i < |os| ==> Letter(os[i]) == 'W'
  {
    if |os| > 0 {
      var init := os[..|os| - 1];
      AllWinsCount(init);
      FormCounts(init);
      assert forall i :: 0 <= i < |init| ==> init[i] == os[i];
    }
  }
}
