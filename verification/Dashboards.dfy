/** Dashboard definitions, their serialized form, and what loading makes of it. */
module Dashboards {
  import opened Basics

  /** A dictionary the definition carries along as it is. */
  type Data = map<string, string>

  datatype Tile = Tile(id: string, dataset: string, profile: string, title: string, options: Data,
                       select: Option<seq<string>>, limit: Option<int>, series: Option<Data>, kpi: Option<Data>)

  datatype Dashboard = Dashboard(name: Name, tiles: seq<Tile>, id: Option<string>, title: string,
                                 description: string, metadata: Data)

  /** A serialized tile; any key may be missing. */
  datatype RawTile = RawTile(id: Option<string>, dataset: Option<string>, profile: Option<string>, title: Option<string>,
                             options: Option<Data>, select: Option<seq<string>>, limit: Option<int>,
                             series: Option<Data>, kpi: Option<Data>)

  /** A serialized dashboard; an entry of tiles that is no dictionary is None. */
  datatype Raw = Raw(name: Option<string>, id: Option<string>, title: Option<string>, description: Option<string>,
                     tiles: Option<seq<Option<RawTile>>>, metadata: Option<Data>)

  /** What the constructors check. */
  predicate Legal(d: Dashboard) {
    d.name.text != "" && forall t | t in d.tiles :: t.id != "" && t.dataset != ""
  }

  function Or(a: string, b: string): string {
    if a != "" then a else b
  }

  function TileToDict(t: Tile): RawTile {
    RawTile(Some(t.id), Some(t.dataset), Some(t.profile), Some(Or(t.title, t.dataset)), Some(t.options),
            t.select, t.limit, t.series, t.kpi)
  }

  /** None where the constructor raises. */
  function TileFromDict(r: RawTile): Option<Tile> {
    if r.id.GetOr("") == "" || r.dataset.GetOr("") == "" then None
    else Some(Tile(r.id.value, r.dataset.value, Or(r.profile.GetOr(""), "table"), r.title.GetOr(""),
                   r.options.GetOr(map[]), r.select, r.limit, r.series, r.kpi))
  }

  function TilesToDict(ts: seq<Tile>): seq<Option<RawTile>> {
    if ts == [] then [] else [Some(TileToDict(ts[0]))] + TilesToDict(ts[1..])
  }

  function TilesFromDict(rs: seq<Option<RawTile>>): Option<seq<Tile>> {
    if rs == [] then Some([])
    else if rs[0].None? then TilesFromDict(rs[1..])
    else
      var t, rest := TileFromDict(rs[0].value), TilesFromDict(rs[1..]);
      if t.None? || rest.None? then None else Some([t.value] + rest.value)
  }

  function DefinitionId(d: Dashboard): string {
    if d.id.Some? then Or(d.id.value, d.name.text) else d.name.text
  }

  function ToDict(d: Dashboard): Raw {
    Raw(Some(d.name.text), Some(DefinitionId(d)), Some(Or(d.title, d.name.text)), Some(d.description),
        Some(TilesToDict(d.tiles)), Some(d.metadata))
  }

  function FromDict(r: Raw): Option<Dashboard> {
    var tiles := TilesFromDict(r.tiles.GetOr([]));
    if tiles.None? || r.name.GetOr("") == "" then None
    else Some(Dashboard(Name(r.name.value), tiles.value, if r.id.GetOr("") == "" then None else r.id,
                        r.title.GetOr(""), r.description.GetOr(""), r.metadata.GetOr(map[])))
  }

  // ---------------------------------------------------------------------------
  // The normal form
  // ---------------------------------------------------------------------------

  predicate Profiled(d: Dashboard) {
    forall t | t in d.tiles :: t.profile != ""
  }

  /** Loading fails exactly on a missing name or on a tile without id or dataset. */
  lemma {:induction false} TilesLoadIff(rs: seq<Option<RawTile>>)
    ensures TilesFromDict(rs).Some? <==>
            forall r | r in rs && r.Some? :: r.value.id.GetOr("") != "" && r.value.dataset.GetOr("") != ""
    ensures TilesFromDict(rs).Some? ==> forall t | t in TilesFromDict(rs).value :: t.id != "" && t.dataset != "" && t.profile != ""
  {
    if rs != [] {
      TilesLoadIff(rs[1..]);
      assert rs == [rs[0]] + rs[1..];
    }
  }

  /** Everything loaded is legal and has a profile on every tile. */
  lemma LoadedIsLegal(r: Raw)
    ensures FromDict(r).Some? <==>
            && r.name.GetOr("") != ""
            && forall t | t in r.tiles.GetOr([]) && t.Some? :: t.value.id.GetOr("") != "" && t.value.dataset.GetOr("") != ""
    ensures FromDict(r).Some? ==> Legal(FromDict(r).value) && Profiled(FromDict(r).value)
  {
    TilesLoadIff(r.tiles.GetOr([]));
  }

  lemma {:induction false} TilesRoundTrip(ts: seq<Tile>)
    requires forall t | t in ts :: t.id != "" && t.dataset != ""
    ensures TilesFromDict(TilesToDict(ts)).Some?
    ensures TilesToDict(TilesFromDict(TilesToDict(ts)).value) == TilesToDict(ts) <==> forall t | t in ts :: t.profile != ""
    ensures |TilesFromDict(TilesToDict(ts)).value| == |ts|
  {
    if ts != [] {
      assert ts == [ts[0]] + ts[1..];
      TilesRoundTrip(ts[1..]);
      var again := TilesFromDict(TilesToDict(ts[1..])).value;
      var whole := [TileFromDict(TileToDict(ts[0])).value] + again;
      assert TilesToDict(ts)[1..] == TilesToDict(ts[1..]);
      assert TilesFromDict(TilesToDict(ts)) == Some(whole) && whole[1..] == again;
      var back := TilesToDict(whole);
      assert back[1..] == TilesToDict(again);
      assert back == TilesToDict(ts) <==> back[0] == TilesToDict(ts)[0] && back[1..] == TilesToDict(ts)[1..] by {
        assert back == [back[0]] + back[1..];
      }
    }
  }

  /** Saving and loading a legal dashboard works, and saving that gives the same dictionary exactly when every
      tile has a profile. */
  lemma RoundTrip(d: Dashboard)
    requires Legal(d)
    ensures FromDict(ToDict(d)).Some? && FromDict(ToDict(d)).value.name == d.name
    ensures ToDict(FromDict(ToDict(d)).value) == ToDict(d) <==> Profiled(d)
  {
    TilesRoundTrip(d.tiles);
  }

  lemma {:induction false} TilesComeBack(ts: seq<Tile>)
    requires forall t | t in ts :: t.id != "" && t.dataset != ""
    ensures var back := TilesFromDict(TilesToDict(ts));
            && back.Some? && |back.value| == |ts|
            && forall k | 0 <= k < |ts| :: back.value[k] == ts[k].(profile := if ts[k].profile == "" then "table" else ts[k].profile,
                                                                   title := if ts[k].title == "" then ts[k].dataset else ts[k].title)
  {
    if ts != [] {
      assert ts == [ts[0]] + ts[1..];
      TilesComeBack(ts[1..]);
      assert TilesToDict(ts)[1..] == TilesToDict(ts[1..]);
    }
  }

  /** What comes back of a legal dashboard that is saved and loaded: everything as it was, with an empty id, title, tile
      title or profile replaced by what stands in for it. */
  lemma ComesBack(d: Dashboard)
    requires Legal(d)
    ensures FromDict(ToDict(d)).Some?
    ensures var back := FromDict(ToDict(d)).value;
            && back.name == d.name && back.description == d.description && back.metadata == d.metadata
            && back.id == Some(if d.id == None || d.id == Some("") then d.name.text else d.id.value)
            && back.title == (if d.title == "" then d.name.text else d.title)
            && |back.tiles| == |d.tiles|
            && forall k | 0 <= k < |d.tiles| ::
                 back.tiles[k] == d.tiles[k].(profile := if d.tiles[k].profile == "" then "table" else d.tiles[k].profile,
                                              title := if d.tiles[k].title == "" then d.tiles[k].dataset else d.tiles[k].title)
    ensures RowOf(d) == Row(d.name, FromDict(ToDict(d)).value.id.value, FromDict(ToDict(d)).value.title, d.description, |d.tiles|)
  {
    TilesComeBack(d.tiles);
  }

  /** A tile with an empty profile comes back as a table. */
  lemma EmptyProfileIsLost()
    ensures exists d :: Legal(d) && FromDict(ToDict(d)).Some? && ToDict(FromDict(ToDict(d)).value) != ToDict(d)
  {
    var tile := Tile("t", "d", "", "", map[], None, None, None, None);
    var d := Dashboard(Name("board"), [tile], None, "", "", map[]);
    assert tile in d.tiles && !Profiled(d);
    RoundTrip(d);
  }

  /** What has been loaded once is not changed by saving and loading again. */
  lemma LoadedIsNormal(r: Raw)
    requires FromDict(r).Some?
    ensures var d := FromDict(r).value;
            FromDict(ToDict(d)).Some? && ToDict(FromDict(ToDict(d)).value) == ToDict(d)
  {
    LoadedIsLegal(r);
    RoundTrip(FromDict(r).value);
  }

  /** A row of the dashboard listing. */
  datatype Row = Row(name: Name, id: string, title: string, description: string, tiles: nat)

  function RowOf(d: Dashboard): Row {
    Row(d.name, DefinitionId(d), Or(d.title, d.name.text), d.description, |d.tiles|)
  }

  /** A listing row does not depend on profiles: it survives saving and loading of any legal dashboard. */
  lemma RowSurvives(d: Dashboard)
    requires Legal(d)
    ensures FromDict(ToDict(d)).Some? && RowOf(FromDict(ToDict(d)).value) == RowOf(d)
  {
    TilesRoundTrip(d.tiles);
  }
}
