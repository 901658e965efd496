/** What the match page derives from a loaded pre-match analysis
    (src/pages/MatchAnalysis.tsx): the id-to-name map for the advanced blocks, the market
    fallback, the windows of the prefetch, the H2H venue rule's inputs and the merged
    suggestion list. */
module MatchPage {
  import opened Js
  import opened Seqs
  import opened Payloads
  import opened MatchForm
  import H2HVenueRule

  // ---------------------------------------------------------------- idNameMap

  /** A player id and name offered to the map, from a composition list or an impact detail. */
  datatype Candidate = Candidate(id: Option<Id>, name: Option<string>)

  function PlayerCandidates(ps: seq<Player>): (cs: seq<Candidate>)
    ensures |cs| == |ps|
  {
    seq(|ps|, i requires 0 <= i < |ps| => Candidate(ps[i].id, ps[i].name))
  }

  function DetailCandidates(ds: seq<ImpactDetail>): (cs: seq<Candidate>)
    ensures |cs| == |ds|
  {
    seq(|ds|, i requires 0 <= i < |ds| => Candidate(ds[i].playerId, ds[i].name))
  }

  /** `side.xi`, `side.bench` and `side.out`, in that order (not `startXI`/`substitutes`). */
  function CompositionCandidates(side: Option<Side>): seq<Candidate> {
    if side.None? then []
    else PlayerCandidates(side.value.xi.GetOr([]) + side.value.bench.GetOr([]) + side.value.out.GetOr([]))
  }

  /** Every candidate in the order the page offers them: home composition, away
      composition, home impact details, away impact details. */
  function Candidates(fu: Option<FeaturesUsed>): seq<Candidate> {
    if fu.None? then []
    else
      var f := fu.value;
      CompositionCandidates(f.compHome) + CompositionCandidates(f.compAway)
      + DetailCandidates(f.impactHome.GetOr([])) + DetailCandidates(f.impactAway.GetOr([]))
  }

  /** `players_index`, or an empty map. */
  function BaseIndex(fu: Option<FeaturesUsed>): map<string, string> {
    if fu.Some? && fu.value.playersIndex.Some? then fu.value.playersIndex.value else map[]
  }

  /** A candidate is offered when its id and its name are both truthy. */
  predicate Eligible(c: Candidate) { IdTruthy(c.id) && Truthy(c.name) }

  function KeyOf(c: Candidate): string
    requires c.id.Some?
  {
    IdText(c.id.value)
  }

  /** `!map[key]`: the key is absent or maps to "". */
  predicate Unnamed(m: map<string, string>, k: string) { k !in m || m[k] == "" }

  /** One candidate offered to the map: written only when eligible and its key is unnamed. */
  function Offer(m: map<string, string>, c: Candidate): map<string, string> {
    if Eligible(c) && Unnamed(m, KeyOf(c)) then m[KeyOf(c) := c.name.value] else m
  }

  /** The map after offering every candidate, in order. */
  function NameMapOf(base: map<string, string>, cs: seq<Candidate>): map<string, string> {
    if |cs| == 0 then base else Offer(NameMapOf(base, cs[..|cs| - 1]), cs[|cs| - 1])
  }

  /** `idNameMap` */
  method BuildIdNameMap(fu: Option<FeaturesUsed>) returns (m: map<string, string>)
    ensures m == NameMapOf(BaseIndex(fu), Candidates(fu))
  {
    m := BaseIndex(fu);
    var cs := Candidates(fu);
    var i := 0;
    while i < |cs|
      invariant 0 <= i <= |cs|
      invariant m == NameMapOf(BaseIndex(fu), cs[..i])
    {
      var c := cs[i];
      assert cs[..i + 1][..i] == cs[..i];
      if IdTruthy(c.id) && Truthy(c.name) && Unnamed(m, IdText(c.id.value)) {
        m := m[IdText(c.id.value) := c.name.value];
      }
      i := i + 1;
    }
    assert cs[..i] == cs;
  }

  /** A name already in `players_index` is never replaced. */
  lemma {:induction false} NamedEntriesKept(base: map<string, string>, cs: seq<Candidate>)
    ensures forall k :: k in base && base[k] != "" ==> k in NameMapOf(base, cs) && NameMapOf(base, cs)[k] == base[k]
  {
    if |cs| > 0 {
      NamedEntriesKept(base, cs[..|cs| - 1]);
    }
  }

  /** The keys of the map are those of `players_index` and those of the eligible candidates. */
  lemma {:induction false} NameMapKeys(base: map<string, string>, cs: seq<Candidate>)
    ensures forall k :: k in NameMapOf(base, cs) <==>
              k in base || exists i :: 0 <= i < |cs| && Eligible(cs[i]) && KeyOf(cs[i]) == k
  {
    if |cs| > 0 {
      var init := cs[..|cs| - 1];
      NameMapKeys(base, init);
      assert forall i :: 0 <= i < |init| ==> init[i] == cs[i];
    }
  }

  /** Offering candidates none of which has key `k` changes nothing at `k`. */
  lemma {:induction false} OtherKeysUntouched(base: map<string, string>, cs: seq<Candidate>, k: string)
    requires forall i :: 0 <= i < |cs| && Eligible(cs[i]) ==> KeyOf(cs[i]) != k
    ensures k in NameMapOf(base, cs) <==> k in base
    ensures k in base ==> NameMapOf(base, cs)[k] == base[k]
  {
    if |cs| > 0 {
      var init := cs[..|cs| - 1];
      assert forall i :: 0 <= i < |init| ==> init[i] == cs[i];
      OtherKeysUntouched(base, init, k);
    }
  }

  /** Once a key holds a non-empty name, later candidates leave it. */
  lemma {:induction false} NameSticks(m: map<string, string>, cs: seq<Candidate>, k: string)
    requires k in m && m[k] != ""
    ensures k in NameMapOf(m, cs) && NameMapOf(m, cs)[k] == m[k]
  {
    NamedEntriesKept(m, cs);
  }

  lemma {:induction false} NameMapOfConcat(base: map<string, string>, a: seq<Candidate>, b: seq<Candidate>)
    ensures NameMapOf(base, a + b) == NameMapOf(NameMapOf(base, a), b)
  {
    if |b| == 0 {
      assert a + b == a;
    } else {
      NameMapOfConcat(base, a, b[..|b| - 1]);
      assert (a + b)[..|a + b| - 1] == a + b[..|b| - 1];
    }
  }

  /** First wins: when `players_index` has no name for a key, the key gets the name of the
      first eligible candidate with that key. */
  lemma FirstCandidateWins(base: map<string, string>, cs: seq<Candidate>, i: nat)
    requires i < |cs| && Eligible(cs[i]) && Unnamed(base, KeyOf(cs[i]))
    requires forall j :: 0 <= j < i && Eligible(cs[j]) ==> KeyOf(cs[j]) != KeyOf(cs[i])
    ensures KeyOf(cs[i]) in NameMapOf(base, cs) && NameMapOf(base, cs)[KeyOf(cs[i])] == cs[i].name.value
  {
    var k := KeyOf(cs[i]);
    var before := cs[..i];
    assert forall j :: 0 <= j < |before| ==> before[j] == cs[j];
    OtherKeysUntouched(base, before, k);
    var m := NameMapOf(base, before);
    assert cs[..i + 1][..i] == before;
    var m' := NameMapOf(base, cs[..i + 1]);
    assert m' == Offer(m, cs[i]);
    assert cs == cs[..i + 1] + cs[i + 1..];
    NameMapOfConcat(base, cs[..i + 1], cs[i + 1..]);
    NameSticks(m', cs[i + 1..], k);
  }

  // ---------------------------------------------------------------- market fallback

  /** `!odds || Object.keys(odds).length === 0`: missing, or an object without keys. */
  predicate NoOdds(o: Option<Odds>) {
    o.None? || o.value.keys == 0
  }

  function OddsOf(m: Option<Market>): Option<Odds> {
    if m.Some? then m.value.odds else None
  }

  /** `{ home: o["1"], draw: o["X"], away: o["2"] }`: three keys, whatever their values. */
  function OddsFrom1X2(o: Trio): (r: Odds)
    ensures r.quotes == o && !NoOdds(Some(r))
  {
    Odds(Trio(o.home, o.draw, o.away), 3)
  }

  /** `market_used`, else a copy of `features_used.market`. */
  function KeptMarket(used: Option<Market>, base: Option<Market>): (r: Option<Market>)
    ensures used.Some? ==> r == used
    ensures used.None? ==> r == base
  {
    if used.None? && base.Some? then
      Some(Market(base.value.source, base.value.isLive, base.value.odds, base.value.implied))
    else used
  }

  /** The market the page keeps: `market_used`, else a copy of `features_used.market`; then,
      when it has no odds and the payload carries `odds_1x2_1X2`, that record's "1", "X" and
      "2" become its odds. */
  function MergeMarket(used: Option<Market>, base: Option<Market>, o1x2: Option<Trio>): (r: Option<Market>)
    // an existing market whose odds object has a key, even one holding null, is kept as it is
    ensures used.Some? && !NoOdds(used.value.odds) ==> r == used
    // without any source there is no market
    ensures used.None? && base.None? && o1x2.None? ==> r.None?
    // the 1X2 record fills the odds exactly when the kept market has none
    ensures o1x2.Some? && NoOdds(OddsOf(KeptMarket(used, base))) ==> r.Some? && r.value.odds == Some(OddsFrom1X2(o1x2.value))
    ensures !(o1x2.Some? && NoOdds(OddsOf(KeptMarket(used, base)))) ==> r == KeptMarket(used, base)
    // the other fields come from `market_used` when it is there, else from the base market
    ensures r.Some? && (used.Some? || base.Some?) ==>
              var m := if used.Some? then used.value else base.value;
              r.value.source == m.source && r.value.isLive == m.isLive && r.value.implied == m.implied
  {
    var m := KeptMarket(used, base);
    if (m.None? || NoOdds(m.value.odds)) && o1x2.Some? then
      var b := m.GetOr(Market(None, None, None, None));
      Some(b.(odds := Some(OddsFrom1X2(o1x2.value))))
    else m
  }

  /** An odds object whose three entries are all null still has its keys, so the 1X2 record
      does not replace it. */
  lemma NullOddsKept(source: Option<string>, o1x2: Trio)
    ensures var used := Market(source, None, Some(Odds(Trio(None, None, None), 3)), None);
            MergeMarket(Some(used), None, Some(o1x2)) == Some(used)
  {
  }

  /** An empty odds object is replaced by the 1X2 record, the other fields kept. */
  lemma EmptyOddsReplaced(m: Market, o1x2: Trio)
    requires m.odds == Some(Odds(Trio(None, None, None), 0))
    ensures MergeMarket(Some(m), None, Some(o1x2)) == Some(m.(odds := Some(Odds(o1x2, 3))))
  {
  }

  /** Running the fallback again on its own result changes nothing. */
  lemma MergeMarketIdempotent(used: Option<Market>, base: Option<Market>, o1x2: Option<Trio>)
    ensures MergeMarket(MergeMarket(used, base, o1x2), base, o1x2) == MergeMarket(used, base, o1x2)
  {
  }

  // ---------------------------------------------------------------- prefetch windows

  const StatsWindow: nat := 5
  const ScorersWindow: nat := 8

  /** The rows whose payloads feed a side's averages: the first five of its last matches. */
  function StatsList(last: seq<Option<Fixture>>): seq<Option<Fixture>> { Take(last, StatsWindow) }

  /** The rows whose payloads feed the recent scorers: the first eight. */
  function ScorersList(last: seq<Option<Fixture>>): seq<Option<Fixture>> { Take(last, ScorersWindow) }

  /** The head-to-head rows feeding a side's H2H averages: the meetings where the team held
      the venue, the first five of them. */
  function H2HList(h2h: seq<Option<Fixture>>, team: string, venue: Venue): seq<Option<Fixture>> {
    Take(VenueFiltered(h2h, team, venue), StatsWindow)
  }

  /** The averages read a prefix of the rows the scorers read. */
  lemma WindowsNest(last: seq<Option<Fixture>>)
    ensures |StatsList(last)| <= StatsWindow && |ScorersList(last)| <= ScorersWindow
    ensures StatsList(last) == ScorersList(last)[..|StatsList(last)|]
  {
  }

  /** Every H2H row used for a side's averages is a meeting where the team held the venue,
      taken in list order. */
  lemma H2HListRows(h2h: seq<Option<Fixture>>, team: string, venue: Venue)
    ensures |H2HList(h2h, team, venue)| <= StatsWindow
    ensures forall it :: it in H2HList(h2h, team, venue) ==> it in h2h && HeldVenue(it, team, venue)
  {
    VenueRowsHeldVenue(h2h, team, venue);
    var f := VenueFiltered(h2h, team, venue);
    assert forall it :: it in H2HList(h2h, team, venue) ==> it in f;
  }

  // ---------------------------------------------------------------- rule 0

  function H2HInput(f: Option<CompactForm>): Option<H2HVenueRule.H2HForm> {
    if f.Some? then Some(ToH2HForm(f.value)) else None
  }

  /** The arguments the page gives the H2H venue rule: the two venue forms over the
      pre-filtered head-to-head list, the kept market, and no `minN`. */
  function RuleInputs(homeTeam: string, awayTeam: string, h2h: seq<Option<Fixture>>, market: Option<Market>): (a: H2HVenueRule.RuleArgs)
    ensures a.minN.None?
  {
    var homeForm := VenueFormOf(Arr(VenueFiltered(h2h, homeTeam, Home)), Some(homeTeam), Home);
    var awayForm := VenueFormOf(Arr(VenueFiltered(h2h, awayTeam, Away)), Some(awayTeam), Away);
    H2HVenueRule.RuleArgs(homeTeam, awayTeam, H2HInput(homeForm), H2HInput(awayForm),
                          if market.Some? && market.value.odds.Some? then Some(market.value.odds.value.quotes) else None,
                          if market.Some? then market.value.implied else None,
                          None)
  }

  /** The page's pre-filter is redundant: each form handed to the rule is the venue form of
      the whole head-to-head list. */
  lemma RuleFormsAreVenueForms(homeTeam: string, awayTeam: string, h2h: seq<Option<Fixture>>, market: Option<Market>)
    ensures RuleInputs(homeTeam, awayTeam, h2h, market).homeForm == H2HInput(VenueFormOf(Arr(h2h), Some(homeTeam), Home))
    ensures RuleInputs(homeTeam, awayTeam, h2h, market).awayForm == H2HInput(VenueFormOf(Arr(h2h), Some(awayTeam), Away))
  {
    VenuePrefilterRedundant(h2h, homeTeam, Home);
    VenuePrefilterRedundant(h2h, awayTeam, Away);
  }

  /** A venue form covering three meetings or more, all won. */
  predicate PerfectStreak(f: Option<CompactForm>) {
    f.Some? && f.value.n >= 3 && forall i :: 0 <= i < |f.value.letters| ==> f.value.letters[i] == 'W'
  }

  /** On the page, rule 0 fires exactly when a team won every one of at least three of its
      last (up to five) head-to-head meetings at its venue. */
  lemma RuleFiresOnPerfectStreak(homeTeam: string, awayTeam: string, h2h: seq<Option<Fixture>>, market: Option<Market>)
    ensures H2HVenueRule.Evaluate(RuleInputs(homeTeam, awayTeam, h2h, market)).Triggered? <==>
              PerfectStreak(VenueFormOf(Arr(h2h), Some(homeTeam), Home)) || PerfectStreak(VenueFormOf(Arr(h2h), Some(awayTeam), Away))
  {
    RuleFormsAreVenueForms(homeTeam, awayTeam, h2h, market);
    var args := RuleInputs(homeTeam, awayTeam, h2h, market);
    assert H2HVenueRule.MinN(args) == H2HVenueRule.DefaultMinN;
    PerfectInput(VenueFormOf(Arr(h2h), Some(homeTeam), Home));
    PerfectInput(VenueFormOf(Arr(h2h), Some(awayTeam), Away));
  }

  /** A computed form is perfect for the rule exactly when it is a perfect streak. */
  lemma PerfectInput(f: Option<CompactForm>)
    requires f.Some? ==> exists os: seq<(real, real)> :: FormOf(os) == f
    ensures H2HVenueRule.Perfect(H2HInput(f), H2HVenueRule.DefaultMinN) <==> PerfectStreak(f)
  {
    if f.Some? {
      var os: seq<(real, real)> :| FormOf(os) == f;
      assert |os| > 0;
      PerfectFormIsAllWins(os);
      assert f.value.n == |os| && f.value.letters == Letters(os) && |Letters(os)| == |os|;
      assert H2HInput(f) == Some(ToH2HForm(FormOf(os).value));
      assert H2HVenueRule.Perfect(H2HInput(f), H2HVenueRule.DefaultMinN) <==> |os| >= 3 && forall i :: 0 <= i < |os| ==> Letters(os)[i] == 'W';
      assert PerfectStreak(f) <==> |os| >= 3 && forall i :: 0 <= i < |os| ==> Letters(os)[i] == 'W';
    }
  }

  // ---------------------------------------------------------------- mergedPredictions

  datatype Suggestion = Suggestion(text: string, risk: string)

  /** `rule0.risk || "standard"` */
  function RiskText(r: H2HVenueRule.Risk): string {
    var name := H2HVenueRule.RiskLabel(r);
    if name != "" then name else "standard"
  }

  /** `mergedPredictions`: the rule's suggestion first when it fired, then the analysis's
      own suggestions in their order. */
  function MergedPredictions(rule: H2HVenueRule.RuleOutput, predictions: Option<seq<Suggestion>>): (r: seq<Suggestion>)
    ensures rule.Triggered? ==> |r| == |predictions.GetOr([])| + 1 && r[1..] == predictions.GetOr([])
                                && r[0] == Suggestion(rule.suggestionText, H2HVenueRule.RiskLabel(rule.risk))
    ensures rule.NotTriggered? ==> r == predictions.GetOr([])
  {
    (if rule.Triggered? then [Suggestion(rule.suggestionText, RiskText(rule.risk))] else []) + predictions.GetOr([])
  }
}
