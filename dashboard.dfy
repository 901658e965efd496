/** The match list of the home page (src/pages/Dashboard.tsx): the championship choices
    built from both lists, and the filtered, time-ordered day and live lists. */
module Dashboard {
  import opened Js
  import opened Seqs

  /** A match as the list endpoints return it. */
  datatype Match = Match(id: int, homeTeam: Option<string>, awayTeam: Option<string>,
                         date: string, time: string, championship: Option<string>, isLive: bool)

  // ---------------------------------------------------------------- championships

  /** `ms.map(m => m.championship)` */
  function ChampionshipsOf(ms: seq<Match>): (r: seq<Option<string>>)
    ensures |r| == |ms|
    ensures forall i :: 0 <= i < |ms| ==> r[i] == ms[i].championship
  {
    seq(|ms|, i requires 0 <= i < |ms| => ms[i].championship)
  }

  /** `.filter(Boolean)` on optional strings, keeping the strings. */
  function TruthyValues(s: seq<Option<string>>): (r: seq<string>)
    ensures forall x :: x in r <==> Some(x) in s && x != ""
  {
    if |s| == 0 then []
    else
      var init := TruthyValues(s[..|s| - 1]);
      assert s == s[..|s| - 1] + [s[|s| - 1]];
      if Truthy(s[|s| - 1]) then init + [s[|s| - 1].value] else init
  }

  /** `Array.from(new Set(all)).sort()`: every non-empty championship of either list, each
      once, in strictly increasing order. */
  function Championships(matches: seq<Match>, live: seq<Match>): (r: seq<string>)
    ensures forall c :: c in r <==> c != "" && exists m :: m in matches + live && m.championship == Some(c)
    ensures forall i, j :: 0 <= i < j < |r| ==> StrLe(r[i], r[j]) && r[i] != r[j]
  {
    var all := ChampionshipsOf(matches) + ChampionshipsOf(live);
    var r := SortBy(Distinct(TruthyValues(all)), StrLe);
    ChoicesOf(all, r);
    ChampionshipOfEither(matches, live);
    r
  }

  lemma StrLeIsTotalPreorder()
    ensures TotalPreorder(StrLe)
  {
    forall a, b ensures StrLe(a, b) || StrLe(b, a) { StrLeTotal(a, b); }
    forall a, b, c | StrLe(a, b) && StrLe(b, c) ensures StrLe(a, c) { StrLeTrans(a, b, c); }
  }

  /** De-duplicating the truthy strings and sorting them leaves each once, increasing. */
  lemma ChoicesOf(all: seq<Option<string>>, r: seq<string>)
    requires r == SortBy(Distinct(TruthyValues(all)), StrLe)
    ensures forall c :: c in r <==> c != "" && Some(c) in all
    ensures forall i, j :: 0 <= i < j < |r| ==> StrLe(r[i], r[j]) && r[i] != r[j]
  {
    var d := Distinct(TruthyValues(all));
    DistinctProperties(TruthyValues(all));
    DistinctPermutation(d, r);
    StrLeIsTotalPreorder();
    SortByIsSorted(d, StrLe);
    forall c ensures c in r <==> c in d {
      assert c in r <==> c in multiset(r);
      assert c in d <==> c in multiset(d);
    }
  }

  /** A championship appears in the two mapped lists exactly when a match of either list
      carries it. */
  lemma ChampionshipOfEither(matches: seq<Match>, live: seq<Match>)
    ensures forall c :: Some(c) in ChampionshipsOf(matches) + ChampionshipsOf(live) <==>
                          exists m :: m in matches + live && m.championship == Some(c)
  {
    var all := ChampionshipsOf(matches) + ChampionshipsOf(live);
    forall c ensures Some(c) in all <==> exists m :: m in matches + live && m.championship == Some(c) {
      if Some(c) in all {
        var k :| 0 <= k < |all| && all[k] == Some(c);
        if k < |matches| {
          assert matches[k] in matches + live;
        } else {
          assert live[k - |matches|] in matches + live;
        }
      }
      if exists m :: m in matches + live && m.championship == Some(c) {
        var m :| m in matches + live && m.championship == Some(c);
        var k :| 0 <= k < |matches + live| && (matches + live)[k] == m;
        if k < |matches| {
          assert all[k] == Some(c);
        } else {
          assert all[k] == ChampionshipsOf(live)[k - |matches|] == Some(c);
        }
      }
    }
  }

  // ---------------------------------------------------------------- the two lists

  /** The home or the away team's name, lowercased, contains the lowercased search. */
  predicate SearchMatches(m: Match, search: string) {
    (m.homeTeam.Some? && Contains(Lower(m.homeTeam.value), Lower(search))) ||
    (m.awayTeam.Some? && Contains(Lower(m.awayTeam.value), Lower(search)))
  }

  /** `!championship || match.championship === championship` */
  predicate ChampionshipMatches(m: Match, championship: string) {
    championship == "" || m.championship == Some(championship)
  }

  function DayTest(search: string, championship: string, date: string): Match -> bool {
    m => SearchMatches(m, search) && ChampionshipMatches(m, championship) && m.date == date
  }

  function LiveTest(search: string, championship: string): Match -> bool {
    m => SearchMatches(m, search) && ChampionshipMatches(m, championship)
  }

  /** `(a, b) => a.time.localeCompare(b.time)`, read as UTF-16 code-unit order of the times. */
  predicate TimeLe(a: Match, b: Match) { StrLe(a.time, b.time) }

  /** `filteredMatches`: exactly the matches of the chosen date and championship whose home
      or away team contains the search, ignoring case, each as often as given, by time. */
  function FilteredMatches(matches: seq<Match>, search: string, championship: string, date: string): (r: seq<Match>)
    ensures multiset(r) <= multiset(matches)
    ensures forall m :: m in r <==>
              m in matches && SearchMatches(m, search) && ChampionshipMatches(m, championship) && m.date == date
    ensures forall i, j :: 0 <= i < j < |r| ==> StrLe(r[i].time, r[j].time)
  {
    SortedFilterMeaning(matches, DayTest(search, championship, date));
    SortBy(Filter(matches, DayTest(search, championship, date)), TimeLe)
  }

  /** `filteredLiveMatches`: the same search and championship choice, whatever the date. */
  function FilteredLiveMatches(live: seq<Match>, search: string, championship: string): (r: seq<Match>)
    ensures multiset(r) <= multiset(live)
    ensures forall m :: m in r <==> m in live && SearchMatches(m, search) && ChampionshipMatches(m, championship)
    ensures forall i, j :: 0 <= i < j < |r| ==> StrLe(r[i].time, r[j].time)
  {
    SortedFilterMeaning(live, LiveTest(search, championship));
    SortBy(Filter(live, LiveTest(search, championship)), TimeLe)
  }

  lemma TimeLeIsTotalPreorder()
    ensures TotalPreorder(TimeLe)
  {
    forall a, b ensures TimeLe(a, b) || TimeLe(b, a) { StrLeTotal(a.time, b.time); }
    forall a, b, c | TimeLe(a, b) && TimeLe(b, c) ensures TimeLe(a, c) { StrLeTrans(a.time, b.time, c.time); }
  }

  /** A filtered list sorted by time holds each kept match as often as the input does, and
      nothing else. */
  lemma {:induction false} SortedFilterMeaning(ms: seq<Match>, p: Match -> bool)
    ensures var r := SortBy(Filter(ms, p), TimeLe);
            && multiset(r) == multiset(Filter(ms, p))
            && multiset(r) <= multiset(ms)
            && (forall m :: m in r <==> m in ms && p(m))
            && (forall i, j :: 0 <= i < j < |r| ==> StrLe(r[i].time, r[j].time))
  {
    var f := Filter(ms, p);
    var r := SortBy(f, TimeLe);
    FilterMembers(ms, p);
    TimeLeIsTotalPreorder();
    SortByIsSorted(f, TimeLe);
    forall m ensures m in r <==> m in f {
      assert m in r <==> m in multiset(r);
      assert m in f <==> m in multiset(f);
    }
  }

  /** On one list, the day filter is the live filter narrowed to the chosen date. */
  lemma DayIsLiveOnDate(ms: seq<Match>, search: string, championship: string, date: string)
    ensures multiset(FilteredMatches(ms, search, championship, date)) ==
            multiset(Filter(FilteredLiveMatches(ms, search, championship), (m: Match) => m.date == date))
  {
    var dayTest, liveTest := DayTest(search, championship, date), LiveTest(search, championship);
    var onDate := (m: Match) => m.date == date;
    var live := Filter(ms, liveTest);
    assert forall m :: dayTest(m) == (liveTest(m) && onDate(m));
    FilterAnd(ms, liveTest, onDate, dayTest);
    FilterPermuted(live, SortBy(live, TimeLe), onDate);
  }

  /** An empty search keeps every match that names a team. */
  lemma EmptySearchKeepsNamed(m: Match)
    requires m.homeTeam.Some? || m.awayTeam.Some?
    ensures SearchMatches(m, "")
  {
    if m.homeTeam.Some? {
      assert OccursAt(Lower(m.homeTeam.value), Lower(""), 0);
    } else {
      assert OccursAt(Lower(m.awayTeam.value), Lower(""), 0);
    }
  }

  // ---------------------------------------------------------------- the list shown

  datatype ListView = Loading | NoMatches | Cards(matches: seq<Match>, live: bool)

  /** The live tab or the day tab: a waiting message while its list loads, then its
      filtered list, or a message when that is empty. */
  function Shown(isLive: bool, loading: bool, loadingLive: bool, matches: seq<Match>, live: seq<Match>,
                 search: string, championship: string, date: string): (v: ListView)
    ensures v.Loading? <==> (if isLive then loadingLive else loading)
    ensures v.Cards? ==> v.live == isLive && |v.matches| > 0
    ensures v.Cards? && isLive ==> v.matches == FilteredLiveMatches(live, search, championship)
    ensures v.Cards? && !isLive ==> v.matches == FilteredMatches(matches, search, championship, date)
    ensures v.NoMatches? ==> |(if isLive then FilteredLiveMatches(live, search, championship)
                               else FilteredMatches(matches, search, championship, date))| == 0
  {
    if isLive then
      if loadingLive then Loading
      else
        var r := FilteredLiveMatches(live, search, championship);
        if |r| > 0 then Cards(r, true) else NoMatches
    else
      if loading then Loading
      else
        var r := FilteredMatches(matches, search, championship, date);
        if |r| > 0 then Cards(r, false) else NoMatches
  }
}
