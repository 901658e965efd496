/** The averages section of the match page (src/components/stats/AvgStatsSection.tsx):
    a card per metric showing five slots, their average and the number of values, and the
    gating of the head-to-head block. Its local `computeAvg` and `pad5` are the same as the
    shared ones, which are used here. */
module AvgStatsSection {
  import opened Js
  import opened Seqs
  import opened StatsExtractors

  /** A side's series: one optional list of per-match values per metric. */
  type Series = map<Metric, seq<Option<real>>>

  /** `series[key] ?? []` */
  function SeriesAt(s: Series, m: Metric): seq<Option<real>> {
    if m in s then s[m] else []
  }

  /** `METRIC_ORDER`: the ten metrics and their card titles, in display order. */
  const MetricOrder: seq<(Metric, string)> := [
    (Sot, "Tirs cadr\U{00E9}s"), (Soff, "Tirs non cadr\U{00E9}s"), (Shots, "Tirs (total)"),
    (Attacks, "Attaques"), (Dangerous, "Attaques dangereuses"), (Corners, "Corners"),
    (Fouls, "Fautes"), (Offsides, "Hors-jeu"), (Yellow, "Cartons jaunes"), (Red, "Cartons rouges")]

  /** The metric `m` has a card in the order. */
  predicate Listed(m: Metric) {
    exists i :: 0 <= i < |MetricOrder| && MetricOrder[i].0 == m
  }

  /** The order lists every metric exactly once. */
  lemma MetricOrderComplete()
    ensures |MetricOrder| == 10
    ensures forall i, j :: 0 <= i < j < |MetricOrder| ==> MetricOrder[i].0 != MetricOrder[j].0
    ensures forall m: Metric :: Listed(m)
  {
    forall m: Metric ensures Listed(m) {
      match m
      case Sot => assert MetricOrder[0].0 == m;
      case Soff => assert MetricOrder[1].0 == m;
      case Shots => assert MetricOrder[2].0 == m;
      case Attacks => assert MetricOrder[3].0 == m;
      case Dangerous => assert MetricOrder[4].0 == m;
      case Corners => assert MetricOrder[5].0 == m;
      case Fouls => assert MetricOrder[6].0 == m;
      case Offsides => assert MetricOrder[7].0 == m;
      case Yellow => assert MetricOrder[8].0 == m;
      case Red => assert MetricOrder[9].0 == m;
    }
  }

  // ---------------------------------------------------------------- renderMetricCard

  datatype Card = Card(title: string, values: seq<Option<real>>, avg: Option<real>, n: nat)

  /** The number of values that are present. */
  function CountPresent(arr: seq<Option<real>>): nat { |Present(arr)| }

  /** `renderMetricCard`: five slots padded with nothing, the average of those slots, and
      the count of values over the whole, unpadded list. */
  function MetricCard(title: string, arr: Option<seq<Option<real>>>): (c: Card)
    ensures c.title == title && |c.values| == 5
    // the slots are the list's first five entries, then empty slots
    ensures forall i :: 0 <= i < 5 ==> c.values[i] == if i < |arr.GetOr([])| then arr.GetOr([])[i] else None
    ensures c.avg.None? <==> forall i :: 0 <= i < 5 ==> c.values[i].None?
    ensures c.n <= |arr.GetOr([])|
  {
    var values := Pad5(arr.GetOr([]), None);
    Card(title, values, ComputeAvg(values), CountPresent(arr.GetOr([])))
  }

  /** The padding adds no value: the card's average is that of the first five entries. */
  lemma CardAverageOfFirstFive(title: string, arr: seq<Option<real>>)
    ensures MetricCard(title, Some(arr)).avg == ComputeAvg(Take(arr, 5))
  {
    var values := Pad5(arr, None);
    var w := Take(arr, 5);
    if |arr| < 5 {
      assert values == w + seq(5 - |arr|, _ => None);
      PresentOfNones(w, 5 - |arr|);
    } else {
      assert values == w;
    }
  }

  lemma {:induction false} PresentOfNones(w: seq<Option<real>>, k: nat)
    ensures Present(w + seq(k, _ => None)) == Present(w)
  {
    if k > 0 {
      var pad := seq(k, _ => None);
      assert w + pad == (w + seq(k - 1, _ => None)) + [None];
      assert (w + pad)[..|w + pad| - 1] == w + seq(k - 1, _ => None);
      PresentOfNones(w, k - 1);
    } else {
      assert w + seq(k, _ => None) == w;
    }
  }

  /** The count covers every present value, including those past the fifth that the slots
      do not show; within five entries it is exactly the values shown. */
  lemma CardCountCoversSlots(title: string, arr: seq<Option<real>>)
    ensures CountPresent(Pad5(arr, None)) <= MetricCard(title, Some(arr)).n
    ensures |arr| <= 5 ==> CountPresent(Pad5(arr, None)) == MetricCard(title, Some(arr)).n
  {
    var w := Take(arr, 5);
    if |arr| < 5 {
      assert Pad5(arr, None) == w + seq(5 - |arr|, _ => None);
      PresentOfNones(w, 5 - |arr|);
    } else {
      assert Pad5(arr, None) == w;
    }
    assert arr == w + arr[|w|..];
    PresentOfConcat(w, arr[|w|..]);
  }

  lemma {:induction false} PresentOfConcat(a: seq<Option<real>>, b: seq<Option<real>>)
    ensures Present(a + b) == Present(a) + Present(b)
  {
    if |b| == 0 {
      assert a + b == a;
    } else {
      PresentOfConcat(a, b[..|b| - 1]);
      assert (a + b)[..|a + b| - 1] == a + b[..|b| - 1];
    }
  }

  // ---------------------------------------------------------------- hasAnyValue and the H2H block

  /** A value is present in the series of the metric at position `k` of the order. */
  predicate MetricHasValue(s: Series, k: nat)
    requires k < |MetricOrder|
  {
    exists i :: 0 <= i < |SeriesAt(s, MetricOrder[k].0)| && SeriesAt(s, MetricOrder[k].0)[i].Some?
  }

  /** `hasAnyValue` */
  predicate HasAnyValue(s: Option<Series>) {
    s.Some? && exists k :: 0 <= k < |MetricOrder| && MetricHasValue(s.value, k)
  }

  /** Since the order covers every metric, a series has a value exactly when some metric,
      whichever it is, has one. */
  lemma HasAnyValueMeansSomeMetric(s: Option<Series>)
    ensures HasAnyValue(s) <==> s.Some? && exists m: Metric, i :: 0 <= i < |SeriesAt(s.value, m)| && SeriesAt(s.value, m)[i].Some?
  {
    MetricOrderComplete();
    if s.Some? {
      if exists m: Metric, i :: 0 <= i < |SeriesAt(s.value, m)| && SeriesAt(s.value, m)[i].Some? {
        var m: Metric, i :| 0 <= i < |SeriesAt(s.value, m)| && SeriesAt(s.value, m)[i].Some?;
        assert Listed(m);
        var k :| 0 <= k < |MetricOrder| && MetricOrder[k].0 == m;
        assert MetricHasValue(s.value, k);
      }
    }
  }

  /** The head-to-head part: the block, then each side's sub-block on its own. */
  datatype H2HView = H2HView(block: bool, homeBlock: bool, awayBlock: bool)

  function H2HVisibility(h2hHome: Option<Series>, h2hAway: Option<Series>): (v: H2HView)
    ensures v.block <==> v.homeBlock || v.awayBlock
    ensures v.homeBlock <==> HasAnyValue(h2hHome)
    ensures v.awayBlock <==> HasAnyValue(h2hAway)
  {
    var any := HasAnyValue(h2hHome) || HasAnyValue(h2hAway);
    H2HView(any, any && HasAnyValue(h2hHome), any && HasAnyValue(h2hAway))
  }

  /** A series without a single value, such as a missing one, hides its sub-block. */
  lemma EmptySeriesHidden(s: Series)
    requires forall m :: m in s ==> forall i :: 0 <= i < |s[m]| ==> s[m][i].None?
    ensures !HasAnyValue(Some(s))
  {
    HasAnyValueMeansSomeMetric(Some(s));
  }

  // ---------------------------------------------------------------- the section

  /** `series?.[key]`: a missing series and a missing key both read as undefined. */
  function Lookup(s: Option<Series>, m: Metric): (r: Option<seq<Option<real>>>)
    ensures r.GetOr([]) == (if s.Some? then SeriesAt(s.value, m) else [])
  {
    if s.Some? && m in s.value then Some(s.value[m]) else None
  }

  /** One card per metric, in the display order. */
  function Cards(s: Option<Series>): (cs: seq<Card>)
    ensures |cs| == |MetricOrder|
    ensures forall k :: 0 <= k < |cs| ==> cs[k] == MetricCard(MetricOrder[k].1, Lookup(s, MetricOrder[k].0))
  {
    seq(|MetricOrder|, k requires 0 <= k < |MetricOrder| => MetricCard(MetricOrder[k].1, Lookup(s, MetricOrder[k].0)))
  }

  /** A series has a value exactly when one of its cards counts one. */
  lemma CardsCountExactlyWhenAnyValue(s: Option<Series>)
    ensures HasAnyValue(s) <==> exists k :: 0 <= k < |Cards(s)| && Cards(s)[k].n > 0
  {
    var cs := Cards(s);
    forall k | 0 <= k < |cs|
      ensures cs[k].n > 0 <==> s.Some? && MetricHasValue(s.value, k)
    {
      var arr := Lookup(s, MetricOrder[k].0).GetOr([]);
      PresentNonEmpty(arr);
    }
  }

  /** Some entry is present exactly when the list of present entries is not empty. */
  lemma {:induction false} PresentNonEmpty(arr: seq<Option<real>>)
    ensures |Present(arr)| > 0 <==> exists i :: 0 <= i < |arr| && arr[i].Some?
  {
    if |arr| > 0 {
      var init := arr[..|arr| - 1];
      PresentNonEmpty(init);
      PresentOfConcat(init, [arr[|arr| - 1]]);
      assert arr == init + [arr[|arr| - 1]];
      assert [arr[|arr| - 1]][..0] == [];
      if exists i :: 0 <= i < |init| && init[i].Some? {
        var i :| 0 <= i < |init| && init[i].Some?;
        assert arr[i].Some?;
      }
      if exists i :: 0 <= i < |arr| && arr[i].Some? {
        var i :| 0 <= i < |arr| && arr[i].Some?;
        if i < |init| { assert init[i].Some?; }
      }
    }
  }

  /** What the section shows: a waiting message while loading; otherwise the home and
      away cards, and each head-to-head side's cards only when that side has a value. */
  datatype SectionView =
    | Loading
    | Shown(home: seq<Card>, away: seq<Card>, h2hHome: Option<seq<Card>>, h2hAway: Option<seq<Card>>)

  function Section(loading: bool, home: Series, away: Series,
                   h2hHome: Option<Series>, h2hAway: Option<Series>): (v: SectionView)
    ensures loading <==> v.Loading?
    ensures v.Shown? ==> v.home == Cards(Some(home)) && v.away == Cards(Some(away))
    ensures v.Shown? ==> (v.h2hHome.Some? <==> HasAnyValue(h2hHome))
    ensures v.Shown? ==> (v.h2hAway.Some? <==> HasAnyValue(h2hAway))
    ensures v.Shown? && v.h2hHome.Some? ==> v.h2hHome.value == Cards(h2hHome)
    ensures v.Shown? && v.h2hAway.Some? ==> v.h2hAway.value == Cards(h2hAway)
  {
    if loading then Loading
    else
      var h2h := H2HVisibility(h2hHome, h2hAway);
      Shown(Cards(Some(home)), Cards(Some(away)),
            if h2h.homeBlock then Some(Cards(h2hHome)) else None,
            if h2h.awayBlock then Some(Cards(h2hAway)) else None)
  }
}
