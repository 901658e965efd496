/** The line-up card (src/components/LineupList.tsx): the id-to-name index of a side, the
    display name and status icon of an absent player, and which view the card shows. */
module LineupList {
  import opened Js
  import opened Payloads

  /** A JavaScript record keyed by a number: the key is the number's text. */
  type NameIndex = map<string, string>

  // ---------------------------------------------------------------- buildNameIndex

  /** `typeof p.id === "number" && p.name`: the player enters the index. */
  predicate Indexed(p: Player) {
    p.id.Some? && p.id.value.NumId? && Truthy(p.name)
  }

  /** The player enters the index under the key `k`. */
  predicate IndexedAs(p: Player, k: string) {
    Indexed(p) && IdText(p.id.value) == k
  }

  /** `push(arr)` applied to `idx`: every player of `ps`, in order, overwrites its entry. */
  function PushAll(idx: NameIndex, ps: seq<Player>): NameIndex
    decreases |ps|
  {
    if |ps| == 0 then idx
    else
      var before := PushAll(idx, ps[..|ps| - 1]);
      var p := ps[|ps| - 1];
      if Indexed(p) then before[IdText(p.id.value) := p.name.value] else before
  }

  /** The players `buildNameIndex` reads, in the order it reads them: xi, bench, out. */
  function SidePlayers(side: Side): seq<Player> {
    side.xi.GetOr([]) + side.bench.GetOr([]) + side.out.GetOr([])
  }

  /** `buildNameIndex` */
  function NameIndexOf(side: Option<Side>): NameIndex {
    if side.None? then map[] else PushAll(map[], SidePlayers(side.value))
  }

  /** `push(arr)` on a local record, as the `forEach` does it. */
  method Push(idx: NameIndex, arr: Option<seq<Player>>) returns (r: NameIndex)
    ensures r == PushAll(idx, arr.GetOr([]))
  {
    var ps := arr.GetOr([]);
    r := idx;
    var i := 0;
    while i < |ps|
      invariant 0 <= i <= |ps|
      invariant r == PushAll(idx, ps[..i])
    {
      var p := ps[i];
      assert ps[..i + 1][..i] == ps[..i];
      if p.id.Some? && p.id.value.NumId? && Truthy(p.name) {
        r := r[IdText(p.id.value) := p.name.value];
      }
      i := i + 1;
    }
    assert ps[..i] == ps;
  }

  method BuildNameIndex(side: Option<Side>) returns (idx: NameIndex)
    ensures idx == NameIndexOf(side)
    ensures side.None? ==> idx == map[]
  {
    idx := map[];
    if side.None? { return; }
    var s := side.value;
    idx := Push(idx, s.xi);
    idx := Push(idx, s.bench);
    idx := Push(idx, s.out);
    PushAllConcat(map[], s.xi.GetOr([]), s.bench.GetOr([]));
    PushAllConcat(map[], s.xi.GetOr([]) + s.bench.GetOr([]), s.out.GetOr([]));
  }

  /** Pushing two lists one after the other is pushing their concatenation. */
  lemma {:induction false} PushAllConcat(idx: NameIndex, a: seq<Player>, b: seq<Player>)
    ensures PushAll(PushAll(idx, a), b) == PushAll(idx, a + b)
    decreases |b|
  {
    if |b| == 0 {
      assert a + b == a;
    } else {
      PushAllConcat(idx, a, b[..|b| - 1]);
      assert (a + b)[..|a + b| - 1] == a + b[..|b| - 1];
    }
  }

  /** The index holds a key exactly when the starting index did or some player enters under
      it, and every name it holds from the players is a non-empty one. */
  lemma {:induction false} PushAllKeys(idx: NameIndex, ps: seq<Player>, k: string)
    ensures k in PushAll(idx, ps) <==> k in idx || exists i :: 0 <= i < |ps| && IndexedAs(ps[i], k)
    ensures k in PushAll(idx, ps) && k !in idx ==> PushAll(idx, ps)[k] != ""
    decreases |ps|
  {
    if |ps| > 0 {
      var init := ps[..|ps| - 1];
      PushAllKeys(idx, init, k);
      if exists i :: 0 <= i < |init| && IndexedAs(init[i], k) {
        var i :| 0 <= i < |init| && IndexedAs(init[i], k);
        assert IndexedAs(ps[i], k);
      }
      if exists i :: 0 <= i < |ps| && IndexedAs(ps[i], k) {
        var i :| 0 <= i < |ps| && IndexedAs(ps[i], k);
        if i < |init| { assert IndexedAs(init[i], k); }
      }
    }
  }

  /** The last player that enters under a key decides its name. */
  lemma {:induction false} PushAllLastWins(idx: NameIndex, ps: seq<Player>, i: nat, k: string)
    requires i < |ps| && IndexedAs(ps[i], k)
    requires forall j :: i < j < |ps| ==> !IndexedAs(ps[j], k)
    ensures k in PushAll(idx, ps) && PushAll(idx, ps)[k] == ps[i].name.value
    decreases |ps|
  {
    if i < |ps| - 1 {
      var init := ps[..|ps| - 1];
      assert init[i] == ps[i];
      forall j | i < j < |init| ensures !IndexedAs(init[j], k) {
        assert init[j] == ps[j];
      }
      PushAllLastWins(idx, init, i, k);
      assert !IndexedAs(ps[|ps| - 1], k);
    }
  }

  /** A key no player enters under keeps what the starting index held. */
  lemma {:induction false} PushAllElsewhere(idx: NameIndex, ps: seq<Player>, k: string)
    requires forall j :: 0 <= j < |ps| ==> !IndexedAs(ps[j], k)
    ensures k in PushAll(idx, ps) <==> k in idx
    ensures k in idx ==> PushAll(idx, ps)[k] == idx[k]
    decreases |ps|
  {
    if |ps| > 0 {
      var init := ps[..|ps| - 1];
      forall j | 0 <= j < |init| ensures !IndexedAs(init[j], k) {
        assert init[j] == ps[j];
      }
      PushAllElsewhere(idx, init, k);
      assert !IndexedAs(ps[|ps| - 1], k);
    }
  }

  /** The index of a side: keyed by the numeric ids of xi, bench and out players with a
      name, each holding the name of the last of them, in that order, with that id. */
  lemma NameIndexMeaning(side: Side, k: string)
    ensures k in NameIndexOf(Some(side)) <==>
              exists i :: 0 <= i < |SidePlayers(side)| && IndexedAs(SidePlayers(side)[i], k)
    ensures k in NameIndexOf(Some(side)) ==> NameIndexOf(Some(side))[k] != ""
  {
    PushAllKeys(map[], SidePlayers(side), k);
  }

  lemma OutOverwritesXi(side: Side, i: nat, j: nat, k: string)
    requires side.xi.Some? && side.out.Some?
    requires i < |side.xi.value| && IndexedAs(side.xi.value[i], k)
    requires j < |side.out.value| && IndexedAs(side.out.value[j], k)
    requires forall l :: j < l < |side.out.value| ==> !IndexedAs(side.out.value[l], k)
    ensures k in NameIndexOf(Some(side)) && NameIndexOf(Some(side))[k] == side.out.value[j].name.value
  {
    var all := SidePlayers(side);
    var off := |side.xi.value| + |side.bench.GetOr([])|;
    assert all[off + j] == side.out.value[j];
    forall l | off + j < l < |all| ensures !IndexedAs(all[l], k) {
      assert all[l] == side.out.value[l - off];
    }
    PushAllLastWins(map[], all, off + j, k);
  }

  // ---------------------------------------------------------------- OutRow and StatusIcon

  const Unknown: string := "Inconnu"

  /** `p.name ?? (p.id != null && nameIndex[p.id] ? nameIndex[p.id] : undefined) ?? "Inconnu"` */
  function DisplayName(p: Player, index: NameIndex): (r: string)
    ensures p.name.Some? ==> r == p.name.value
    ensures (p.name.None? && p.id.Some? && IdText(p.id.value) in index && index[IdText(p.id.value)] != "")
              ==> r == index[IdText(p.id.value)]
    ensures (p.name.None? && !(p.id.Some? && IdText(p.id.value) in index && index[IdText(p.id.value)] != ""))
              ==> r == Unknown
  {
    var looked := if p.id.Some? && IdText(p.id.value) in index && index[IdText(p.id.value)] != ""
                  then Some(index[IdText(p.id.value)]) else None;
    p.name.Or(looked).GetOr(Unknown)
  }

  datatype Icon = NoIcon | Injury | Suspension

  /** `StatusIcon` */
  function StatusIcon(status: Option<string>): (r: Icon)
    ensures !Truthy(status) ==> r == NoIcon
    ensures Truthy(status) && StartsWith(Lower(status.value), "injur") ==> r == Injury
    ensures (Truthy(status) && !StartsWith(Lower(status.value), "injur") && Contains(Lower(status.value), "susp"))
              ==> r == Suspension
    ensures (Truthy(status) && !StartsWith(Lower(status.value), "injur") && !Contains(Lower(status.value), "susp"))
              ==> r == NoIcon
  {
    if !Truthy(status) then NoIcon
    else
      ExactStatusesRedundant(status.value);
      var s := Lower(status.value);
      if StartsWith(s, "injur") || status.value == "injury" then Injury
      else if Contains(s, "susp") || status.value == "suspension" then Suspension
      else NoIcon
  }

  /** The two statuses the payload documents get their own icons, and an injury wins over a
      suspension in a status that mentions both. */
  lemma StatusIconOfKnownStatuses()
    ensures StatusIcon(Some("injury")) == Injury
    ensures StatusIcon(Some("Injured")) == Injury
    ensures StatusIcon(Some("suspension")) == Suspension
    ensures StatusIcon(Some("Red card suspension")) == Suspension
    ensures StatusIcon(Some("injury + susp")) == Injury
    ensures StatusIcon(Some("doubtful")) == NoIcon
  {
    assert Lower("suspension")[..4] == "susp";
    assert Lower("suspension")[0] == 's';
    assert OccursAt(Lower("suspension"), "susp", 0);
    assert Lower("Red card suspension")[0] == 'r';
    assert Lower("Red card suspension")[9..13] == "susp";
    assert OccursAt(Lower("Red card suspension"), "susp", 9);
    assert Lower("Injured")[..5] == "injur";
    assert Lower("injury + susp")[..5] == "injur";
    var d := Lower("doubtful");
    assert d == "doubtful";
    assert d[0] == 'd';
    forall i | 0 <= i <= |d| - 4 ensures !OccursAt(d, "susp", i) {
      assert d[i] != 's';
    }
  }

  /** The exact comparisons with "injury" and "suspension" add nothing to the prefix and
      substring tests next to them. */
  lemma ExactStatusesRedundant(s: string)
    ensures s == "injury" ==> StartsWith(Lower(s), "injur")
    ensures s == "suspension" ==> Contains(Lower(s), "susp")
  {
    if s == "suspension" {
      assert Lower(s)[..4] == "susp";
      assert OccursAt(Lower(s), "susp", 0);
    }
  }

  /** An absent player's row: status icon, display name and `reason ?? status ?? ""`. */
  datatype OutRowView = OutRowView(icon: Icon, name: string, detail: string)

  function OutRow(p: Player, index: NameIndex): (r: OutRowView)
    ensures r.name == DisplayName(p, index) && r.icon == StatusIcon(p.status)
    ensures p.reason.Some? ==> r.detail == p.reason.value
    ensures p.reason.None? ==> r.detail == p.status.GetOr("")
  {
    OutRowView(StatusIcon(p.status), DisplayName(p, index), p.reason.Or(p.status).GetOr(""))
  }

  /** A nameless absent player found under its id in the index shows the name the index
      took from the side's lists. */
  lemma AbsentNameFromIndex(side: Side, p: Player, i: nat)
    requires p.name.None? && p.id.Some?
    requires i < |SidePlayers(side)| && IndexedAs(SidePlayers(side)[i], IdText(p.id.value))
    ensures IdText(p.id.value) in NameIndexOf(Some(side))
    ensures DisplayName(p, NameIndexOf(Some(side))) == NameIndexOf(Some(side))[IdText(p.id.value)]
  {
    NameIndexMeaning(side, IdText(p.id.value));
  }

  /** A name given as an empty string is kept as it is: `??` only skips a missing one. */
  lemma EmptyNameKept(p: Player, index: NameIndex)
    requires p.name == Some("")
    ensures DisplayName(p, index) == ""
  {
  }

  // ---------------------------------------------------------------- the card

  datatype Composition = Composition(home: Option<Side>, away: Option<Side>, source: Option<string>)

  /** One team's column: its title, the sizes of its three lists and the absent rows. */
  datatype Column = Column(title: string, xiCount: nat, benchCount: nat, outCount: nat, outRows: seq<OutRowView>)

  /** `side?.<list> ?? []` */
  function XiOf(side: Option<Side>): seq<Player> { if side.Some? then side.value.xi.GetOr([]) else [] }
  function BenchOf(side: Option<Side>): seq<Player> { if side.Some? then side.value.bench.GetOr([]) else [] }
  function OutOf(side: Option<Side>): seq<Player> { if side.Some? then side.value.out.GetOr([]) else [] }

  /** `TeamColumn`: the counts of the three lists, and one row per absent player, named
      through the index of the whole side. */
  function TeamColumn(title: string, side: Option<Side>): (c: Column)
    ensures side.None? ==> c == Column(title, 0, 0, 0, [])
    ensures c.xiCount == |XiOf(side)| && c.benchCount == |BenchOf(side)| && c.outCount == |OutOf(side)|
    ensures |c.outRows| == c.outCount
    ensures forall k :: 0 <= k < |c.outRows| ==> c.outRows[k] == OutRow(OutOf(side)[k], NameIndexOf(side))
  {
    var xi := XiOf(side);
    var bench := BenchOf(side);
    var out := OutOf(side);
    var index := NameIndexOf(side);
    Column(title, |xi|, |bench|, |out|,
           seq(|out|, k requires 0 <= k < |out| => OutRow(out[k], index)))
  }

  datatype CardView =
    | Unavailable(title: string)
    | Columns(title: string, home: Column, away: Column, source: Option<string>)

  const DefaultTitle: string := "\U{1F9D1}\U{200D}\U{1F3EB} Composition des \U{00E9}quipes"

  /** `LineupList`: `composition ?? comp`; nothing to show without either side; otherwise
      two columns titled `team_name || name || default`, and the source when it is set. */
  function Card(composition: Option<Composition>, comp: Option<Composition>,
                homeName: Option<string>, awayName: Option<string>, title: Option<string>): (v: CardView)
    ensures var eff := composition.Or(comp);
            v.Unavailable? <==> eff.None? || (eff.value.home.None? && eff.value.away.None?)
    ensures v.title == title.GetOr(DefaultTitle)
    ensures v.Columns? ==> var eff := composition.Or(comp).value;
              && v.home.title == OrElse(OrElse(if eff.home.Some? then eff.home.value.teamName else None, homeName), Some("Domicile")).value
              && v.away.title == OrElse(OrElse(if eff.away.Some? then eff.away.value.teamName else None, awayName), Some("Ext\U{00E9}rieur")).value
              && v.home == TeamColumn(v.home.title, eff.home)
              && v.away == TeamColumn(v.away.title, eff.away)
              && (v.source.Some? <==> Truthy(eff.source))
  {
    var t := title.GetOr(DefaultTitle);
    var eff := composition.Or(comp);
    if eff.None? || (eff.value.home.None? && eff.value.away.None?) then Unavailable(t)
    else
      var c := eff.value;
      var homeTitle := OrElse(OrElse(if c.home.Some? then c.home.value.teamName else None, homeName), Some("Domicile")).value;
      var awayTitle := OrElse(OrElse(if c.away.Some? then c.away.value.teamName else None, awayName), Some("Ext\U{00E9}rieur")).value;
      Columns(t, TeamColumn(homeTitle, c.home), TeamColumn(awayTitle, c.away),
              if Truthy(c.source) then c.source else None)
  }

  /** The legacy `comp` prop is read only when `composition` is missing. */
  lemma CompositionWins(c: Composition, comp: Option<Composition>, homeName: Option<string>,
                        awayName: Option<string>, title: Option<string>)
    ensures Card(Some(c), comp, homeName, awayName, title) == Card(Some(c), None, homeName, awayName, title)
  {
  }

  /** A column title is never empty: an empty team name falls through to the name passed
      in, and that to the default. */
  lemma ColumnTitlesNonEmpty(composition: Option<Composition>, comp: Option<Composition>,
                             homeName: Option<string>, awayName: Option<string>, title: Option<string>)
    ensures var v := Card(composition, comp, homeName, awayName, title);
            v.Columns? ==> v.home.title != "" && v.away.title != ""
  {
  }
}
