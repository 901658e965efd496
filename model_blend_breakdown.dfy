/** The model agreement table (src/components/prediction/ModelBlendBreakdown.tsx): the
    per-model 1/X/2 probabilities as clamped percentages and bars, each model's best pick,
    the blend weights, and when the table is shown at all. */
module ModelBlendBreakdown {
  import opened Js
  import opened Seqs
  import opened Payloads

  // ---------------------------------------------------------------- pct and Bar

  /** `typeof v === "number" ? Math.max(0, Math.min(1, v)) : 0`, shared by `pct` and `Bar`. */
  function Clamp01(v: Option<real>): (x: real)
    ensures 0.0 <= x <= 1.0
    ensures v.None? ==> x == 0.0
    ensures v.Some? && 0.0 <= v.value <= 1.0 ==> x == v.value
    ensures v.Some? && v.value > 1.0 ==> x == 1.0
    ensures v.Some? && v.value < 0.0 ==> x == 0.0
  {
    if v.None? then 0.0
    else if v.value > 1.0 then 1.0
    else if v.value < 0.0 then 0.0
    else v.value
  }

  /** `y.toFixed(1)` for a non-negative exact real: tenths rounded half up. */
  function Tenths(y: real): nat
    requires y >= 0.0
  {
    (y * 10.0 + 0.5).Floor
  }

  function Fixed1(y: real): (r: string)
    requires y >= 0.0
    ensures |r| >= 3 && r[|r| - 2] == '.'
  {
    var t := Tenths(y);
    NatToString(t / 10) + "." + [DigitChar(t % 10)]
  }

  /** The one-decimal text reads back as the value rounded to tenths, which is within
      half a tenth of it. */
  lemma Fixed1ReadsBack(y: real)
    requires y >= 0.0
    ensures JsNumber(Fixed1(y)) == Some(Tenths(y) as real / 10.0)
    ensures -0.05 <= Tenths(y) as real / 10.0 - y <= 0.05
  {
    var t := Tenths(y);
    var ip, fp := NatToString(t / 10), [DigitChar(t % 10)];
    assert Fixed1(y) == ip + "." + fp;
    assert AllDigits(fp);
    ReadDecimal(ip, fp);
    DigitsValueOfNatToString(t / 10);
    assert DigitsValue(ip) == t / 10;
    assert fp[1..] == "";
    assert Fraction(fp) == (t % 10) as real / 10.0;
    assert (t / 10) as real * 10.0 + (t % 10) as real == t as real;
    assert t as real <= y * 10.0 + 0.5 < t as real + 1.0;
  }

  /** The clamped value in percent: the width `Bar` draws and the number `pct` prints. */
  function Percent(value: Option<real>): (w: real)
    ensures 0.0 <= w <= 100.0
    ensures value.Some? && 0.0 <= value.value <= 1.0 ==> w == value.value * 100.0
  {
    Clamp01(value) * 100.0
  }

  /** `pct`: the percentage with one decimal, then "%". */
  function Pct(v: Option<real>): (r: string)
    ensures |r| >= 4 && r[|r| - 1] == '%' && r[|r| - 3] == '.'
  {
    Fixed1(Percent(v)) + "%"
  }

  /** The numeral before the "%" reads back as the percentage rounded to tenths, which
      `Fixed1ReadsBack` puts within half a tenth of it. */
  lemma PctReadsBack(v: Option<real>)
    ensures var r := Pct(v); JsNumber(r[..|r| - 1]) == Some(Tenths(Percent(v)) as real / 10.0)
  {
    PercentReadsBack(Percent(v), Pct(v));
  }

  lemma PercentReadsBack(y: real, r: string)
    requires y >= 0.0 && r == Fixed1(y) + "%"
    ensures JsNumber(r[..|r| - 1]) == Some(Tenths(y) as real / 10.0)
  {
    var f := Fixed1(y);
    Fixed1ReadsBack(y);
    assert r[..|r| - 1] == f by { assert |r| - 1 == |f|; }
  }

  /** Clamping twice is clamping once: a percentage text depends only on the clamped value,
      so every value above one reads "100.0%" and everything else out of range "0.0%". */
  lemma PctOfClamped(v: Option<real>)
    ensures Pct(Some(Clamp01(v))) == Pct(v)
    ensures v.None? || v.value <= 0.0 ==> Pct(v) == "0.0%"
    ensures v.Some? && v.value >= 1.0 ==> Pct(v) == "100.0%"
  {
    var c := Clamp01(v);
    assert Clamp01(Some(c)) == c;
    assert Percent(Some(c)) == Percent(v);
    if c == 1.0 {
      assert Percent(v) == 100.0;
      FixedOfHundred();
    } else if c == 0.0 {
      assert Percent(v) == 0.0;
      assert Tenths(0.0) == 0;
      assert Fixed1(0.0) == "0.0";
    }
  }

  lemma FixedOfHundred()
    ensures Fixed1(100.0) == "100.0"
  {
    assert Tenths(100.0) == 1000;
    assert NatToString(100) == "100" by {
      assert NatToString(10) == "10" by { assert NatToString(1) == "1"; }
    }
  }

  // ---------------------------------------------------------------- bestLabel

  datatype Pick = One | X | Two

  function PickText(p: Pick): string {
    match p
    case One => "1"
    case X => "X"
    case Two => "2"
  }

  /** `[["1", home ?? 0], ["X", draw ?? 0], ["2", away ?? 0]]` */
  function Items(t: Trio): (s: seq<(Pick, real)>)
    ensures |s| == 3
  {
    [(One, t.home.GetOr(0.0)), (X, t.draw.GetOr(0.0)), (Two, t.away.GetOr(0.0))]
  }

  /** The comparator `(a, b) => b[1] - a[1]` keeps `a` before `b` when it is not positive. */
  predicate DescLe(a: (Pick, real), b: (Pick, real)) { b.1 - a.1 <= 0.0 }

  /** `bestLabel`: the head of the stably sorted items when its probability is positive.
      The pick is the outcome of highest probability, a missing one reading as zero; a tie
      goes to "1" before "X" before "2"; and there is no pick when nothing is positive or
      there are no probabilities. */
  function BestLabel(p: Option<Trio>): (l: string)
    ensures p.None? ==> l == "-"
    ensures p.Some? ==>
              var h, d, a := p.value.home.GetOr(0.0), p.value.draw.GetOr(0.0), p.value.away.GetOr(0.0);
              && (l == "1" <==> h > 0.0 && h >= d && h >= a)
              && (l == "X" <==> d > 0.0 && d > h && d >= a)
              && (l == "2" <==> a > 0.0 && a > h && a > d)
              && (l == "-" <==> h <= 0.0 && d <= 0.0 && a <= 0.0)
  {
    if p.None? then "-"
    else
      var sorted := SortBy(Items(p.value), DescLe);
      SortedHead(p.value);
      if sorted[0].1 > 0.0 then PickText(sorted[0].0) else "-"
  }

  /** The index of the first item holding the highest value. */
  function FirstMax(s: seq<(Pick, real)>): (k: nat)
    requires |s| > 0
    ensures k < |s|
    ensures forall j :: 0 <= j < |s| ==> s[j].1 <= s[k].1
    ensures forall j :: 0 <= j < k ==> s[j].1 < s[k].1
  {
    if |s| == 1 then 0
    else
      var k0 := FirstMax(s[..|s| - 1]);
      assert s[k0] == s[..|s| - 1][k0];
      assert forall j :: 0 <= j < |s| - 1 ==> s[j] == s[..|s| - 1][j];
      if s[|s| - 1].1 <= s[k0].1 then k0 else |s| - 1
  }

  /** The head of a stable descending sort is the first item holding the highest value. */
  lemma {:induction false} SortHeadIsFirstMax(s: seq<(Pick, real)>)
    requires |s| > 0
    ensures SortBy(s, DescLe)[0] == s[FirstMax(s)]
  {
    var init := s[..|s| - 1];
    var x := s[|s| - 1];
    var r := SortBy(init, DescLe);
    SortByLast(s);
    InsertHead(r, x);
    if |s| > 1 {
      SortHeadIsFirstMax(init);
      assert r[0] == init[FirstMax(init)];
    }
  }

  lemma SortByLast(s: seq<(Pick, real)>)
    requires |s| > 0
    ensures SortBy(s, DescLe) == Insert(SortBy(s[..|s| - 1], DescLe), s[|s| - 1], DescLe)
  {
  }

  lemma InsertHead(r: seq<(Pick, real)>, x: (Pick, real))
    ensures Insert(r, x, DescLe)[0] == if |r| == 0 || !DescLe(r[0], x) then x else r[0]
  {
  }

  /** The head of the sorted items holds the highest value and is the first to hold it. */
  lemma SortedHead(t: Trio)
    ensures var s, h, d, a := SortBy(Items(t), DescLe), t.home.GetOr(0.0), t.draw.GetOr(0.0), t.away.GetOr(0.0);
            && |s| == 3
            && (s[0].0 == One <==> h >= d && h >= a)
            && (s[0].0 == X <==> d > h && d >= a)
            && (s[0].0 == Two <==> a > h && a > d)
            && s[0].1 == if s[0].0 == One then h else if s[0].0 == X then d else a
  {
    var s := Items(t);
    SortHeadIsFirstMax(s);
    var k := FirstMax(s);
    assert forall j :: 0 <= j < 3 ==> s[j].1 <= s[k].1;
    assert s[0] == (One, t.home.GetOr(0.0)) && s[1] == (X, t.draw.GetOr(0.0)) && s[2] == (Two, t.away.GetOr(0.0));
    assert k == 0 || k == 1 || k == 2;
  }

  // ---------------------------------------------------------------- the table

  /** `probs_by_model`: one trio per model and for the blend. */
  datatype Probs = Probs(a1: Option<Trio>, a2: Option<Trio>, a3: Option<Trio>, blend: Option<Trio>)

  /** `blend_weights` */
  datatype Weights = Weights(a1: Option<real>, a2: Option<real>, a3: Option<real>)

  /** The trio is set and has at least one probability. */
  predicate HasValues(t: Option<Trio>) {
    t.Some? && (t.value.home.Some? || t.value.draw.Some? || t.value.away.Some?)
  }

  /** `hasAny` */
  predicate HasAny(p: Probs) {
    HasValues(p.a1) || HasValues(p.a2) || HasValues(p.a3) || HasValues(p.blend)
  }

  /** A probability cell: the bar width and the percentage text. */
  datatype CellView = CellView(width: real, text: string)

  datatype RowView = RowView(model: string, home: CellView, draw: CellView, away: CellView,
                             pick: string, weight: string, emphasize: bool)

  const NoWeight: string := "\U{2014}"

  function Cell(v: Option<real>): (c: CellView)
    ensures 0.0 <= c.width <= 100.0
  {
    CellView(Percent(v), Pct(v))
  }

  /** `RowLine`: a missing trio shows empty bars, "0.0%" and no pick. */
  function RowLine(model: string, p: Option<Trio>, weight: Option<real>, emphasize: bool): (r: RowView)
    ensures r.model == model && r.emphasize == emphasize
    ensures r.pick == BestLabel(p)
    ensures r.weight == (if weight.Some? then Pct(weight) else NoWeight)
    ensures p.None? ==> r.home == r.draw == r.away == CellView(0.0, Pct(None))
    // a present trio: each cell's bar and text from its own probability
    ensures p.Some? ==> r.home == Cell(p.value.home) && r.draw == Cell(p.value.draw) && r.away == Cell(p.value.away)
  {
    var h := if p.Some? then p.value.home else None;
    var d := if p.Some? then p.value.draw else None;
    var a := if p.Some? then p.value.away else None;
    RowView(model, Cell(h), Cell(d), Cell(a), BestLabel(p),
            if weight.Some? then Pct(weight) else NoWeight, emphasize)
  }

  /** The table: the three model rows, the blend row and the reason. */
  datatype TableView = TableView(a1: RowView, a2: RowView, a3: RowView, blend: RowView, reason: Option<string>)

  /** `ModelBlendBreakdown`: nothing unless some model sent a probability; otherwise the
      rows A1, A2, A3 with their weights, then the emphasised blend row without one, and
      the reason when it is not empty. */
  function Breakdown(probs: Option<Probs>, weights: Option<Weights>, reason: Option<string>): (v: Option<TableView>)
    ensures v.Some? <==> probs.Some? && HasAny(probs.value)
    ensures v.Some? ==> && v.value.a1.model == "A1" && !v.value.a1.emphasize
                        && v.value.a2.model == "A2" && !v.value.a2.emphasize
                        && v.value.a3.model == "A3" && !v.value.a3.emphasize
                        && v.value.blend.model == "BLEND" && v.value.blend.emphasize
    ensures v.Some? ==> && v.value.a1.pick == BestLabel(probs.value.a1)
                        && v.value.a2.pick == BestLabel(probs.value.a2)
                        && v.value.a3.pick == BestLabel(probs.value.a3)
                        && v.value.blend.pick == BestLabel(probs.value.blend)
    ensures v.Some? ==> v.value.a1.weight == (if weights.Some? && weights.value.a1.Some? then Pct(weights.value.a1) else NoWeight)
    ensures v.Some? ==> v.value.a2.weight == (if weights.Some? && weights.value.a2.Some? then Pct(weights.value.a2) else NoWeight)
    ensures v.Some? ==> v.value.a3.weight == (if weights.Some? && weights.value.a3.Some? then Pct(weights.value.a3) else NoWeight)
    ensures v.Some? ==> v.value.blend.weight == NoWeight
    // every cell of every row shows its model's probability
    ensures v.Some? ==> && v.value.a1 == RowLine("A1", probs.value.a1, if weights.Some? then weights.value.a1 else None, false)
                        && v.value.a2 == RowLine("A2", probs.value.a2, if weights.Some? then weights.value.a2 else None, false)
                        && v.value.a3 == RowLine("A3", probs.value.a3, if weights.Some? then weights.value.a3 else None, false)
                        && v.value.blend == RowLine("BLEND", probs.value.blend, None, true)
    ensures v.Some? ==> (v.value.reason.Some? <==> Truthy(reason))
  {
    var p := probs.GetOr(Probs(None, None, None, None));
    var w := weights.GetOr(Weights(None, None, None));
    if !HasAny(p) then None
    else
      Some(TableView(RowLine("A1", p.a1, w.a1, false),
                     RowLine("A2", p.a2, w.a2, false),
                     RowLine("A3", p.a3, w.a3, false),
                     RowLine("BLEND", p.blend, None, true),
                     if Truthy(reason) then reason else None))
  }

  /** Trios that are present but empty do not make the table appear. */
  lemma EmptyTriosHidden(weights: Option<Weights>, reason: Option<string>)
    ensures var e := Some(Trio(None, None, None));
            Breakdown(Some(Probs(e, e, e, e)), weights, reason).None?
  {
  }

  /** A blend probability alone is enough to show the table, and every bar stays within
      the cell. */
  lemma BlendAloneShows(blend: Trio, weights: Option<Weights>, reason: Option<string>)
    requires blend.home.Some? || blend.draw.Some? || blend.away.Some?
    ensures var v := Breakdown(Some(Probs(None, None, None, Some(blend))), weights, reason);
            v.Some? && 0.0 <= v.value.blend.home.width <= 100.0 && v.value.a1.pick == "-"
  {
  }
}
