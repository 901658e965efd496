/** Rule 0 of the prediction page: a team that won every head-to-head meeting at
    the venue it plays at (a "perfect streak") is suggested as the pick, with a
    confidence built from the streak length, the 1X2 market and the goal margin. */
module H2HVenueRule {
  import opened Js
  import opened Payloads

  /** A head-to-head summary at one venue: counts and goal averages, each possibly missing. */
  datatype H2HForm = H2HForm(n: Option<int>, win: Option<int>, draw: Option<int>, loss: Option<int>,
                             gfAvg: Option<real>, gaAvg: Option<real>)

  /** The rule's inputs; `minN` is `None` when the caller leaves it out. */
  datatype RuleArgs = RuleArgs(homeTeam: string, awayTeam: string,
                               homeForm: Option<H2HForm>, awayForm: Option<H2HForm>,
                               odds: Option<Trio>, implied: Option<Trio>, minN: Option<int>)

  datatype Risk = Faible | Standard | Eleve

  datatype RuleOutput =
    | NotTriggered
    | Triggered(pick: Venue, confidence: real, reason: string, suggestionText: string, risk: Risk)

  datatype Outcome = HomeWin | DrawResult | AwayWin

  const DefaultMinN := 3

  /** The label of a risk level, as the suggestion cards show it. */
  function RiskLabel(r: Risk): string {
    match r
    case Faible => "faible"
    case Standard => "standard"
    case Eleve => "\U{00E9}lev\U{00E9}"
  }

  function Max(a: real, b: real): real { if a >= b then a else b }
  function Min(a: real, b: real): real { if a <= b then a else b }

  /** `clamp(x, a, b)`: `Math.max(a, Math.min(b, x))`. */
  function Clamp(x: real, a: real, b: real): (r: real)
    ensures a <= b ==> a <= r <= b
    ensures a <= x <= b ==> r == x
    ensures a <= b && x < a ==> r == a
    ensures a <= b && x > b ==> r == b
  {
    Max(a, Min(b, x))
  }

  function MinN(args: RuleArgs): int { args.minN.GetOr(DefaultMinN) }

  /** A perfect streak: the form is present, has at least `minN` meetings, no draw, no
      loss, and as many wins as meetings; every missing count reads as 0. */
  predicate Perfect(f: Option<H2HForm>, minN: int) {
    && f.Some?
    && f.value.n.GetOr(0) >= minN
    && f.value.draw.GetOr(0) == 0
    && f.value.loss.GetOr(0) == 0
    && f.value.win.GetOr(0) == f.value.n.GetOr(0)
  }

  function Margin(f: H2HForm): real { f.gfAvg.GetOr(0.0) - f.gaAvg.GetOr(0.0) }

  /** The tie-break score of a perfect side: `n + (gf_avg - ga_avg) * 0.5`. */
  function TieScore(f: H2HForm): real { f.n.GetOr(0) as real + Margin(f) * 0.5 }

  function TrioAt(t: Trio, o: Outcome): Option<real> {
    match o
    case HomeWin => t.home
    case DrawResult => t.draw
    case AwayWin => t.away
  }

  /** The market's probability of an outcome: the implied probability when given,
      otherwise the inverse of a non-zero odd, otherwise unknown. */
  function ImpliedProb(implied: Option<Trio>, odds: Option<Trio>, o: Outcome): (p: Option<real>)
    ensures implied.Some? && TrioAt(implied.value, o).Some? ==> p == TrioAt(implied.value, o)
    ensures (implied.None? || TrioAt(implied.value, o).None?) ==>
              (p.Some? <==> odds.Some? && TrioAt(odds.value, o).Some? && TrioAt(odds.value, o).value != 0.0)
    ensures (implied.None? || TrioAt(implied.value, o).None?) && p.Some? ==>
              p.value * TrioAt(odds.value, o).value == 1.0
  {
    if implied.Some? && TrioAt(implied.value, o).Some? then TrioAt(implied.value, o)
    else if odds.Some? && TrioAt(odds.value, o).Some? && TrioAt(odds.value, o).value != 0.0 then
      Some(1.0 / TrioAt(odds.value, o).value)
    else None
  }

  function Prob(args: RuleArgs, o: Outcome): Option<real> { ImpliedProb(args.implied, args.odds, o) }

  /** The side the rule suggests, defined whenever some side is perfect. */
  function ChoosePick(args: RuleArgs): Venue {
    var hp := Perfect(args.homeForm, MinN(args));
    var ap := Perfect(args.awayForm, MinN(args));
    if hp && ap then
      var sH := TieScore(args.homeForm.value);
      var sA := TieScore(args.awayForm.value);
      if sA > sH then Away
      else if sA == sH && Prob(args, AwayWin).GetOr(0.0) > Prob(args, HomeWin).GetOr(0.0) then Away
      else Home
    else if hp then Home
    else Away
  }

  function OutcomeOf(v: Venue): Outcome { if v == Home then HomeWin else AwayWin }
  function Opponent(v: Venue): Venue { if v == Home then Away else Home }

  /** The market backs the pick: its probability is known, beats the opponent's when that
      is known, and beats the draw's (0 when unknown). */
  predicate MarketSupports(impPick: Option<real>, impOpp: Option<real>, impDraw: Option<real>) {
    && impPick.Some?
    && (impOpp.None? || impPick.value > impOpp.value)
    && impPick.value > impDraw.GetOr(0.0)
  }

  /** 0.60 plus 0.05 per meeting beyond three, capped at 0.75. */
  function Base(n: int): (b: real)
    ensures 0.60 <= b <= 0.75
    ensures n <= 3 ==> b == 0.60
    ensures n >= 6 ==> b == 0.75
  {
    0.60 + Max(0.0, Min(0.15, 0.05 * (n - 3) as real))
  }

  /** Up to 0.10 more when the market gives the pick more than 40%. */
  function MarketBoost(impPick: Option<real>): (m: real)
    ensures 0.0 <= m <= 0.10
    ensures impPick.None? || impPick.value <= 0.40 ==> m == 0.0
  {
    if impPick.Some? then Clamp((impPick.value - 0.40) * 0.25, 0.0, 0.10) else 0.0
  }

  /** Up to 0.05 more for a positive goal margin. */
  function MarginBoost(margin: real): (m: real)
    ensures 0.0 <= m <= 0.05
    ensures margin <= 0.0 ==> m == 0.0
  {
    Clamp(margin * 0.02, 0.0, 0.05)
  }

  function Confidence(f: H2HForm, impPick: Option<real>): (c: real)
    ensures 0.60 <= c <= 0.90
  {
    Clamp(Base(f.n.GetOr(0)) + MarketBoost(impPick) + MarginBoost(Margin(f)), 0.60, 0.90)
  }

  /** At least 0.80 is low risk, at least 0.70 standard, anything lower high. */
  function RiskOf(c: real): (r: Risk)
    ensures r == Faible <==> c >= 0.80
    ensures r == Standard <==> 0.70 <= c < 0.80
    ensures r == Eleve <==> c < 0.70
  {
    if c >= 0.80 then Faible else if c >= 0.70 then Standard else Eleve
  }

  /** A count as a template literal prints it; a missing one prints as "undefined". */
  function ShowCount(x: Option<int>): string {
    if x.Some? then IntToString(x.value) else "undefined"
  }

  function VenueWords(v: Venue): string {
    if v == Home then "\U{00E0} domicile" else "\U{00E0} l\U{2019}ext\U{00E9}rieur"
  }

  const MarketSuffix: string := " + march\U{00E9} favorable."

  /** What the reason says between the team's name and its last sentence mark. */
  function ReasonBody(f: H2HForm, pick: Venue): string {
    ShowCount(f.win) + "/" + ShowCount(f.n) + " en H2H " + VenueWords(pick) + " "
    + "(" + Fixed2(f.gfAvg.GetOr(0.0)) + " GF / " + Fixed2(f.gaAvg.GetOr(0.0))
    + " GA)"
  }

  function ReasonText(team: string, f: H2HForm, pick: Venue, supports: bool): string {
    (team + " a ") + ReasonBody(f, pick) + (if supports then MarketSuffix else ".")
  }

  const SuggestionPrefix: string := "R\U{00E8}gle H2H/Venue \U{2714}\U{FE0F} : "

  function ChoiceText(pick: Venue, c: real): string {
    "Choix " + (if pick == Home then "1" else "2") + " (" + IntToString(MathRound(c * 100.0)) + "%)."
  }

  /** What the suggestion says between the team's name and the final choice. */
  function SuggestionBody(f: H2HForm, pick: Venue, supports: bool): string {
    " a gagn\U{00E9} " + ShowCount(f.win) + "/" + ShowCount(f.n) + " "
    + "en confrontations directes " + VenueWords(pick) + " "
    + (if supports then "et le march\U{00E9} 1X2 le favorise" else " (march\U{00E9} neutre)") + " \U{2192} "
  }

  function SuggestionText(team: string, f: H2HForm, pick: Venue, supports: bool, c: real): string {
    (SuggestionPrefix + team) + SuggestionBody(f, pick, supports) + ChoiceText(pick, c)
  }

  function FormOf(args: RuleArgs, v: Venue): Option<H2HForm> {
    if v == Home then args.homeForm else args.awayForm
  }

  function TeamOf(args: RuleArgs, v: Venue): string {
    if v == Home then args.homeTeam else args.awayTeam
  }

  /** `evaluateH2HVenueRule` */
  function Evaluate(args: RuleArgs): (r: RuleOutput)
    // triggers exactly when some side has a perfect streak
    ensures r.Triggered? <==> Perfect(args.homeForm, MinN(args)) || Perfect(args.awayForm, MinN(args))
    // a lone perfect side is the pick
    ensures r.Triggered? && !Perfect(args.awayForm, MinN(args)) ==> r.pick == Home
    ensures r.Triggered? && !Perfect(args.homeForm, MinN(args)) ==> r.pick == Away
    // both perfect: away wins the tie-break on score, then on market probability
    ensures Perfect(args.homeForm, MinN(args)) && Perfect(args.awayForm, MinN(args)) ==>
              (r.pick == Away <==>
                 TieScore(args.awayForm.value) > TieScore(args.homeForm.value)
                 || (TieScore(args.awayForm.value) == TieScore(args.homeForm.value)
                     && Prob(args, AwayWin).GetOr(0.0) > Prob(args, HomeWin).GetOr(0.0)))
    // the picked side is perfect, and the figures are those of its form
    ensures r.Triggered? ==> Perfect(FormOf(args, r.pick), MinN(args))
    ensures r.Triggered? ==> 0.60 <= r.confidence <= 0.90
    ensures r.Triggered? ==>
              r.confidence == Confidence(FormOf(args, r.pick).value, Prob(args, OutcomeOf(r.pick)))
    ensures r.Triggered? ==> r.risk == RiskOf(r.confidence)
    // the reason names the team and mentions the market exactly when it backs the pick
    ensures r.Triggered? ==> StartsWith(r.reason, TeamOf(args, r.pick) + " a ")
    ensures r.Triggered? ==>
              (EndsWith(r.reason, MarketSuffix) <==>
                 MarketSupports(Prob(args, OutcomeOf(r.pick)), Prob(args, OutcomeOf(Opponent(r.pick))), Prob(args, DrawResult)))
    ensures r.Triggered? ==>
              StartsWith(r.suggestionText, SuggestionPrefix + TeamOf(args, r.pick))
              && EndsWith(r.suggestionText, ChoiceText(r.pick, r.confidence))
  {
    var minN := MinN(args);
    if !Perfect(args.homeForm, minN) && !Perfect(args.awayForm, minN) then NotTriggered
    else
      var pick := ChoosePick(args);
      var form := FormOf(args, pick).value;
      var team := TeamOf(args, pick);
      var impPick := Prob(args, OutcomeOf(pick));
      var impOpp := Prob(args, OutcomeOf(Opponent(pick)));
      var supports := MarketSupports(impPick, impOpp, Prob(args, DrawResult));
      var c := Confidence(form, impPick);
      var reason := ReasonText(team, form, pick, supports);
      var text := SuggestionText(team, form, pick, supports, c);
      ReasonEnding(team, form, pick, supports);
      ConcatEnds(SuggestionPrefix + team, SuggestionBody(form, pick, supports) + ChoiceText(pick, c));
      ConcatEnds((SuggestionPrefix + team) + SuggestionBody(form, pick, supports), ChoiceText(pick, c));
      Triggered(pick, c, reason, text, RiskOf(c))
  }

  // ---------------------------------------------------------------- lemmas

  /** The reason starts with the team's name and ends with the market sentence exactly
      when the market backs the pick (otherwise it ends in "GA)."). */
  lemma ReasonEnding(team: string, f: H2HForm, pick: Venue, supports: bool)
    ensures StartsWith(ReasonText(team, f, pick, supports), team + " a ")
    ensures EndsWith(ReasonText(team, f, pick, supports), MarketSuffix) <==> supports
  {
    var s := ReasonText(team, f, pick, supports);
    var head := team + " a ";
    var body := ReasonBody(f, pick);
    var tail := if supports then MarketSuffix else ".";
    ConcatEnds(head, body + tail);
    ConcatEnds(head + body, tail);
    if !supports {
      var front := (ShowCount(f.win) + "/" + ShowCount(f.n) + " en H2H " + VenueWords(pick) + " "
        + "(" + Fixed2(f.gfAvg.GetOr(0.0)) + " GF / " + Fixed2(f.gaAvg.GetOr(0.0)));
      assert body == front + " GA)";
      assert s == (head + front) + " GA).";
      ConcatEnds(head + front, " GA).");
      assert s[|s| - 2] == " GA)."[3] == ')';
    }
  }

  /** A worked case: a perfect home streak of four with a
      goal margin of 1.5 and no market data gives confidence 0.68 and a high risk. */
  lemma WorkedExample(home: string, away: string)
    ensures var f := H2HForm(Some(4), Some(4), Some(0), Some(0), Some(2.0), Some(0.5));
            var r := Evaluate(RuleArgs(home, away, Some(f), None, None, None, None));
            r.Triggered? && r.pick == Home && r.confidence == 0.68 && r.risk == Eleve
            && EndsWith(r.suggestionText, "Choix 1 (68%).")
  {
    var f := H2HForm(Some(4), Some(4), Some(0), Some(0), Some(2.0), Some(0.5));
    assert Base(4) == 0.65;
    assert MarginBoost(Margin(f)) == 0.03;
    assert Confidence(f, None) == 0.68;
    assert MathRound(0.68 * 100.0) == 68;
    assert IntToString(68) == "68";
    assert ChoiceText(Home, 0.68) == "Choix 1 (68%).";
  }

  /** Without market data the confidence never exceeds 0.80, so a low risk needs a streak
      of six or more and the full margin boost. */
  lemma NoMarketConfidence(f: H2HForm)
    ensures Confidence(f, None) <= 0.80
    ensures RiskOf(Confidence(f, None)) == Faible ==> f.n.GetOr(0) >= 6 && Margin(f) >= 2.5
  {
    var n := f.n.GetOr(0);
    if n < 6 {
      assert 0.05 * (n - 3) as real <= 0.10;
    }
  }

  /** A higher market probability for the pick never lowers the confidence. */
  lemma ConfidenceMonotoneInMarket(f: H2HForm, p: real, q: real)
    requires p <= q
    ensures Confidence(f, Some(p)) <= Confidence(f, Some(q))
    ensures Confidence(f, None) <= Confidence(f, Some(q))
  {
  }

  /** The percentage printed in the suggestion lies between 60 and 90. */
  lemma PercentInRange(c: real)
    requires 0.60 <= c <= 0.90
    ensures 60 <= MathRound(c * 100.0) <= 90
  {
  }

  /** `minN` falls back to 3 only when it is left out: an explicit 0 lets a form with no
      counts at all count as a perfect streak. */
  lemma MinNDefaultOnlyWhenOmitted(a: RuleArgs)
    ensures Evaluate(a.(minN := None)) == Evaluate(a.(minN := Some(3)))
    ensures Perfect(Some(H2HForm(None, None, None, None, None, None)), 0)
    ensures !Perfect(Some(H2HForm(None, None, None, None, None, None)), DefaultMinN)
  {
  }

  /** The market only matters for the pick when both streaks are perfect and tie on score. */
  lemma MarketOnlyBreaksTies(a: RuleArgs, odds: Option<Trio>, implied: Option<Trio>)
    requires !(Perfect(a.homeForm, MinN(a)) && Perfect(a.awayForm, MinN(a))
               && TieScore(a.homeForm.value) == TieScore(a.awayForm.value))
    ensures ChoosePick(a.(odds := odds, implied := implied)) == ChoosePick(a)
  {
  }
}
