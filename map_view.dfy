/**
 * The map page's controller state (map/map.js): the ordered collection of
 * named layers on the map, the display mode `MAPMODE`, the draw mode
 * `drawMode` with the `draw` interaction it attaches, and the drawing
 * source. Layers are identified by their `name` property; each remote layer
 * keeps the WFS request URL its source was built with.
 */
module MapView {
  import opened Wrappers
  import opened Text

  // Layer names (the `name` property of each layer)
  const Osm := "osm"
  const DrawLayer := "draw"
  const Reserves := "reserves"
  const Tpo := "tpo"
  const Solr := "solr"
  const Sssi := "sssi"

  // Display modes (values of the mode selector)
  const TreesReserves := "trees_reserves"
  const SolrSssi := "solr_sssi"
  const AllData := "all_data"

  /** The names of the layers whose features come from the feature server. */
  const DataLayerNames: set<string> := {Reserves, Tpo, Solr, Sssi}

  /** Where a layer's features come from. */
  datatype Source = Tiles | Sketches | Wfs(url: string)

  datatype Layer = Layer(name: string, source: Source)

  /** The feature type each data layer asks the server for. */
  function TypeName(name: string): string
    requires name in DataLayerNames
  {
    if name == Reserves then "rspb_reserves"
    else if name == Sssi then "all_sssi"
    else if name == Tpo then "trees_near_rspb_reserves"
    else "Solr_in_SSSI"
  }

  /** The query parameters of a GetFeature request, in order. */
  function WfsQuery(typeName: string, extent: seq<string>): seq<string>
  {
    [ "version=1.1.0", "request=GetFeature", "srsname=EPSG:4326",
      "typename=EPDS:" + typeName, "outputFormat=application/json",
      "bbox=" + Join(extent, ",") + ",EPSG:3857" ]
  }

  function WfsEndpoint(host: string): string
  {
    "http://" + host + ":8080/geoserver/wfs?"
  }

  /**
   * The URL `getVectorSource` gives its source: a WFS 1.1.0 GetFeature
   * request for `typeName` within `extent`, whose coordinates are written as
   * the page writes numbers.
   */
  function FeatureUrl(host: string, typeName: string, extent: seq<string>): string
  {
    WfsEndpoint(host) +
    "version=1.1.0&" +
    "request=GetFeature&" +
    "srsname=EPSG:4326&" +
    "typename=EPDS:" + typeName + "&" +
    "outputFormat=application/json&" +
    "bbox=" + Join(extent, ",") +
    ",EPSG:3857"
  }

  lemma {:induction false} JoinSnoc(xs: seq<string>, x: string, sep: string)
    requires |xs| >= 1
    ensures Join(xs + [x], sep) == Join(xs, sep) + sep + x
  {
    if |xs| > 1 {
      assert (xs + [x])[1..] == xs[1..] + [x];
      JoinSnoc(xs[1..], x, sep);
    } else {
      assert (xs + [x])[1..] == [x];
    }
  }

  lemma JoinSix(q: seq<string>, sep: string)
    requires |q| == 6
    ensures Join(q, sep) == q[0] + sep + (q[1] + sep + (q[2] + sep + (q[3] + sep + (q[4] + sep + q[5]))))
  {
    assert Join(q[5..], sep) == q[5];
    assert Join(q[4..], sep) == q[4] + sep + Join(q[5..], sep) by { assert q[4..][1..] == q[5..]; }
    assert Join(q[3..], sep) == q[3] + sep + Join(q[4..], sep) by { assert q[3..][1..] == q[4..]; }
    assert Join(q[2..], sep) == q[2] + sep + Join(q[3..], sep) by { assert q[2..][1..] == q[3..]; }
    assert Join(q[1..], sep) == q[1] + sep + Join(q[2..], sep) by { assert q[1..][1..] == q[2..]; }
  }

  lemma QueryLiterals()
    ensures "version=1.1.0&" == "version=1.1.0" + "&"
    ensures "request=GetFeature&" == "request=GetFeature" + "&"
    ensures "srsname=EPSG:4326&" == "srsname=EPSG:4326" + "&"
    ensures "outputFormat=application/json&" == "outputFormat=application/json" + "&"
  {
  }

  /** The URL with its concatenations grouped from the right, one parameter per level. */
  lemma FeatureUrlNested(host: string, typeName: string, bbox: string, extent: seq<string>)
    requires bbox == Join(extent, ",")
    ensures FeatureUrl(host, typeName, extent) ==
      WfsEndpoint(host) + ("version=1.1.0" + "&" + ("request=GetFeature" + "&" + ("srsname=EPSG:4326" + "&" +
      ("typename=EPDS:" + typeName + "&" + ("outputFormat=application/json" + "&" + ("bbox=" + bbox + ",EPSG:3857"))))))
  {
    QueryLiterals();
    Regroup(WfsEndpoint(host), "version=1.1.0&", "request=GetFeature&", "srsname=EPSG:4326&",
      "typename=EPDS:" + typeName + "&", "outputFormat=application/json&", "bbox=" + bbox + ",EPSG:3857");
  }

  /** Seven strings concatenated from the left are the same string grouped from the right. */
  lemma Regroup(e: string, a: string, b: string, c: string, d: string, g: string, h: string)
    ensures e + a + b + c + d + g + h == e + (a + (b + (c + (d + (g + h)))))
  {
  }

  /** The URL is the endpoint followed by the six GetFeature parameters joined with '&'. */
  lemma FeatureUrlIsQuery(host: string, typeName: string, extent: seq<string>)
    ensures FeatureUrl(host, typeName, extent) == WfsEndpoint(host) + Join(WfsQuery(typeName, extent), "&")
  {
    var q := WfsQuery(typeName, extent);
    JoinSix(q, "&");
    FeatureUrlNested(host, typeName, Join(extent, ","), extent);
  }

  /**
   * The URL's query splits on '&' into exactly the six GetFeature
   * parameters, the type name among them, and the bounding box splits on ','
   * into the extent's coordinates followed by the projection "EPSG:3857".
   */
  lemma FeatureUrlQuery(host: string, typeName: string, extent: seq<string>)
    requires '&' !in typeName
    requires |extent| >= 1 && forall i :: 0 <= i < |extent| ==> '&' !in extent[i] && ',' !in extent[i]
    ensures FeatureUrl(host, typeName, extent) == WfsEndpoint(host) + Join(WfsQuery(typeName, extent), "&")
    ensures Split(Join(WfsQuery(typeName, extent), "&"), "&") == WfsQuery(typeName, extent)
    ensures WfsQuery(typeName, extent)[3] == "typename=EPDS:" + typeName
    ensures Split(Join(extent, ",") + ",EPSG:3857", ",") == extent + ["EPSG:3857"]
  {
    var q := WfsQuery(typeName, extent);
    FeatureUrlIsQuery(host, typeName, extent);
    QueryPiecesFree(typeName, extent);
    SplitJoin(q, '&');
    BoxSplits(extent);
    SeparatorLiterals();
    QueryTypeName(typeName, extent);
  }

  lemma QueryTypeName(typeName: string, extent: seq<string>)
    ensures WfsQuery(typeName, extent)[3] == "typename=EPDS:" + typeName
  {
  }

  lemma SeparatorLiterals()
    ensures "&" == ['&'] && "," == [',']
  {
  }

  lemma QueryPiecesFree(typeName: string, extent: seq<string>)
    requires '&' !in typeName
    requires forall i :: 0 <= i < |extent| ==> '&' !in extent[i]
    ensures forall k :: 0 <= k < 6 ==> '&' !in WfsQuery(typeName, extent)[k]
  {
    var bbox := Join(extent, ",");
    JoinSplitFree(extent, ",", '&');
    FixedParametersFree();
    BoxLiteralsFree();
    var q := WfsQuery(typeName, extent);
    assert q[3] == "typename=EPDS:" + typeName;
    assert q[5] == "bbox=" + bbox + ",EPSG:3857";
  }

  lemma FixedParametersFree()
    ensures '&' !in "version=1.1.0" && '&' !in "request=GetFeature" && '&' !in "srsname=EPSG:4326"
    ensures '&' !in "outputFormat=application/json"
  {
  }

  lemma BoxLiteralsFree()
    ensures '&' !in "typename=EPDS:" && '&' !in "bbox=" && '&' !in ",EPSG:3857"
  {
  }

  lemma BoxSplits(extent: seq<string>)
    requires |extent| >= 1 && forall i :: 0 <= i < |extent| ==> ',' !in extent[i]
    ensures Split(Join(extent, ",") + ",EPSG:3857", ",") == extent + ["EPSG:3857"]
  {
    var ys := extent + ["EPSG:3857"];
    ProjectionLiteral();
    forall k | 0 <= k < |ys| ensures ',' !in ys[k] {
      if k < |extent| {
        assert ys[k] == extent[k];
      }
    }
    SplitSnoc(extent, "EPSG:3857", ",EPSG:3857");
  }

  /** Joining, then appending one more comma-free piece after a comma, splits back into the pieces. */
  lemma SplitSnoc(xs: seq<string>, x: string, tail: string)
    requires |xs| >= 1 && tail == "," + x
    requires forall k :: 0 <= k < |xs + [x]| ==> ',' !in (xs + [x])[k]
    ensures Split(Join(xs, ",") + tail, ",") == xs + [x]
  {
    JoinSnoc(xs, x, ",");
    assert Join(xs + [x], ",") == Join(xs, ",") + tail;
    SplitJoin(xs + [x], ',');
  }

  lemma ProjectionLiteral()
    ensures ",EPSG:3857" == "," + "EPSG:3857"
    ensures ',' !in "EPSG:3857"
  {
  }

  /** A character that neither the pieces nor the separator hold is not in the joined string. */
  lemma {:induction false} JoinSplitFree(xs: seq<string>, sep: string, c: char)
    requires c !in sep
    requires forall i :: 0 <= i < |xs| ==> c !in xs[i]
    ensures c !in Join(xs, sep)
  {
    if |xs| > 1 {
      JoinSplitFree(xs[1..], sep, c);
    }
  }

  /** The layer `getRSPBReserves`, `getTPO`, `getSOLR` or `getSSSI` builds for `extent`. */
  function DataLayer(host: string, name: string, extent: seq<string>): Layer
    requires name in DataLayerNames
  {
    Layer(name, Wfs(FeatureUrl(host, TypeName(name), extent)))
  }

  /** The names of the layers `getLayers` adds in `mode`, in the order it adds them. */
  function ModeLayerNames(mode: string): seq<string>
  {
    if mode == TreesReserves then [Reserves, Tpo]
    else if mode == SolrSssi then [Solr, Sssi]
    else if mode == AllData then [Sssi, Reserves, Solr, Tpo]
    else []
  }

  function ModeLayers(host: string, mode: string, extent: seq<string>): (r: seq<Layer>)
    ensures |r| == |ModeLayerNames(mode)|
    ensures forall i :: 0 <= i < |r| ==> r[i] == DataLayer(host, ModeLayerNames(mode)[i], extent)
  {
    var names := ModeLayerNames(mode);
    seq(|names|, i requires 0 <= i < |names| => DataLayer(host, names[i], extent))
  }

  function Names(layers: seq<Layer>): (r: seq<string>)
    ensures |r| == |layers|
  {
    if layers == [] then [] else [layers[0].name] + Names(layers[1..])
  }

  /** `map.removeLayer(drawing)`: the layer collection without the drawing layer. */
  function WithoutDraw(layers: seq<Layer>): (r: seq<Layer>)
    ensures DrawLayer !in Names(r)
    ensures forall n :: n != DrawLayer ==> multiset(Names(r))[n] == multiset(Names(layers))[n]
  {
    if layers == [] then []
    else if layers[0].name == DrawLayer then WithoutDraw(layers[1..])
    else [layers[0]] + WithoutDraw(layers[1..])
  }

  /** The layers on the map after `getLayers(extent)` runs in `mode`. */
  function LayersAfterLoad(layers: seq<Layer>, host: string, mode: string, extent: seq<string>): seq<Layer>
  {
    WithoutDraw(layers + ModeLayers(host, mode, extent))
  }

  lemma {:induction false} NamesAppend(a: seq<Layer>, b: seq<Layer>)
    ensures Names(a + b) == Names(a) + Names(b)
  {
    if a != [] {
      assert (a + b)[1..] == a[1..] + b;
      NamesAppend(a[1..], b);
    } else {
      assert a + b == b;
    }
  }

  lemma {:induction false} WithoutDrawAppend(a: seq<Layer>, b: seq<Layer>)
    ensures WithoutDraw(a + b) == WithoutDraw(a) + WithoutDraw(b)
  {
    if a != [] {
      assert (a + b)[1..] == a[1..] + b;
      WithoutDrawAppend(a[1..], b);
    } else {
      assert a + b == b;
    }
  }

  lemma {:induction false} WithoutDrawKeeps(layers: seq<Layer>)
    requires forall i :: 0 <= i < |layers| ==> layers[i].name != DrawLayer
    ensures WithoutDraw(layers) == layers
  {
    if layers != [] {
      WithoutDrawKeeps(layers[1..]);
    }
  }

  lemma {:induction false} NamesOfModeLayers(host: string, mode: string, extent: seq<string>)
    ensures Names(ModeLayers(host, mode, extent)) == ModeLayerNames(mode)
  {
    var ls := ModeLayers(host, mode, extent);
    var names := ModeLayerNames(mode);
    if |names| > 0 {
      assert ls == [ls[0]] + ls[1..];
      assert ls[1..] == ModeLayers(host, "", extent) + ls[1..];
      NamesTail(ls, names);
    }
  }

  lemma {:induction false} NamesTail(ls: seq<Layer>, names: seq<string>)
    requires |ls| == |names|
    requires forall i :: 0 <= i < |ls| ==> ls[i].name == names[i]
    ensures Names(ls) == names
  {
    if ls != [] {
      NamesTail(ls[1..], names[1..]);
    }
  }

  /**
   * `getLayers` appends the mode's layers after all earlier layers but the
   * drawing layer: two for "trees_reserves" and "solr_sssi", four for
   * "all_data", none for any other mode.
   */
  lemma LoadedLayers(layers: seq<Layer>, host: string, mode: string, extent: seq<string>)
    ensures LayersAfterLoad(layers, host, mode, extent) == WithoutDraw(layers) + ModeLayers(host, mode, extent)
    ensures Names(LayersAfterLoad(layers, host, mode, extent)) == Names(WithoutDraw(layers)) +
      (if mode == TreesReserves then [Reserves, Tpo]
       else if mode == SolrSssi then [Solr, Sssi]
       else if mode == AllData then [Sssi, Reserves, Solr, Tpo]
       else [])
  {
    var added := ModeLayers(host, mode, extent);
    WithoutDrawAppend(layers, added);
    WithoutDrawKeeps(added);
    NamesAppend(WithoutDraw(layers), added);
    NamesOfModeLayers(host, mode, extent);
  }

  /**
   * After `getLayers` the drawing layer is gone, no other layer has been
   * removed, and each data layer of the mode is there once more than before:
   * same-named layers accumulate.
   */
  lemma LoadAccumulates(layers: seq<Layer>, host: string, mode: string, extent: seq<string>, n: string)
    ensures DrawLayer !in Names(LayersAfterLoad(layers, host, mode, extent))
    ensures n != DrawLayer ==>
      multiset(Names(LayersAfterLoad(layers, host, mode, extent)))[n] ==
      multiset(Names(layers))[n] + multiset(ModeLayerNames(mode))[n]
  {
    var added := ModeLayers(host, mode, extent);
    NamesAppend(layers, added);
    NamesOfModeLayers(host, mode, extent);
  }

  /** Every layer `getLayers` adds requests its own feature type within the given extent. */
  lemma LoadedSources(layers: seq<Layer>, host: string, mode: string, extent: seq<string>)
    ensures var after := LayersAfterLoad(layers, host, mode, extent);
      var kept := |WithoutDraw(layers)|;
      |after| == kept + |ModeLayerNames(mode)| &&
      forall i :: kept <= i < |after| ==>
        after[i].name in DataLayerNames &&
        after[i].source == Wfs(FeatureUrl(host, TypeName(after[i].name), extent))
  {
    LoadedLayers(layers, host, mode, extent);
  }

  /** The layers after loading once for each extent in turn, in one mode. */
  function LoadEach(layers: seq<Layer>, host: string, mode: string, extents: seq<seq<string>>): seq<Layer>
    decreases |extents|
  {
    if extents == [] then layers
    else LoadEach(LayersAfterLoad(layers, host, mode, extents[0]), host, mode, extents[1..])
  }

  /** k loads in one mode leave k more copies of each of the mode's data layers. */
  lemma {:induction false} RepeatedLoadsAccumulate(layers: seq<Layer>, host: string, mode: string,
                                                   extents: seq<seq<string>>, n: string)
    requires n != DrawLayer
    ensures multiset(Names(LoadEach(layers, host, mode, extents)))[n] ==
            multiset(Names(layers))[n] + |extents| * multiset(ModeLayerNames(mode))[n]
    decreases |extents|
  {
    if extents != [] {
      var next := LayersAfterLoad(layers, host, mode, extents[0]);
      var c := multiset(ModeLayerNames(mode))[n];
      var rest := extents[1..];
      LoadAccumulates(layers, host, mode, extents[0], n);
      assert multiset(Names(next))[n] == multiset(Names(layers))[n] + c;
      RepeatedLoadsAccumulate(next, host, mode, rest, n);
      assert LoadEach(layers, host, mode, extents) == LoadEach(next, host, mode, rest);
      OneMore(|rest|, c);
      assert |extents| == |rest| + 1;
    }
  }

  lemma OneMore(k: nat, c: int)
    ensures k * c + c == (k + 1) * c
  {
  }

  /** The layers of a freshly loaded page. */
  function InitialLayers(): seq<Layer>
  {
    [Layer(Osm, Tiles), Layer(DrawLayer, Sketches)]
  }

  lemma InitialLayersWithoutDraw()
    ensures WithoutDraw(InitialLayers()) == [Layer(Osm, Tiles)]
  {
    var ls := InitialLayers();
    assert ls[1..][1..] == [];
    assert WithoutDraw(ls[1..]) == WithoutDraw([]);
  }

  // ---------------------------------------------------------------------------
  // Draw interactions
  // ---------------------------------------------------------------------------

  /** A `Draw` interaction: `id` tells apart the objects the page creates. */
  datatype Interaction = Draw(id: nat, kind: string, boxGeometry: bool)

  /** `collection.remove(x)`: drop the first occurrence of `x`, if any. */
  function RemoveFirst(xs: seq<Interaction>, x: Interaction): (r: seq<Interaction>)
    ensures x in xs ==> |r| == |xs| - 1
    ensures x !in xs ==> r == xs
    ensures forall y :: y in r ==> y in xs
  {
    if xs == [] then []
    else if xs[0] == x then xs[1..]
    else [xs[0]] + RemoveFirst(xs[1..], x)
  }

  /**
   * Removing an attached interaction cuts out its first occurrence, the one
   * at `i`, and keeps the others in order.
   */
  lemma {:induction false} RemoveFirstAt(xs: seq<Interaction>, x: Interaction, i: nat)
    requires i < |xs| && xs[i] == x && x !in xs[..i]
    ensures RemoveFirst(xs, x) == xs[..i] + xs[i + 1..]
  {
    if i == 0 {
      assert xs[..0] + xs[1..] == xs[1..];
    } else {
      var tail := xs[1..];
      assert xs[0] != x by { assert xs[0] in xs[..i]; }
      assert tail[..i - 1] == xs[1..i];
      RemoveFirstAt(tail, x, i - 1);
      assert xs[..i] == [xs[0]] + tail[..i - 1];
      assert xs[i + 1..] == tail[i..];
      AppendAssoc([xs[0]], tail[..i - 1], tail[i..]);
    }
  }

  /** `map.removeInteraction(draw)`, where `draw` may still be undefined. */
  function RemoveInteraction(xs: seq<Interaction>, draw: Option<Interaction>): seq<Interaction>
  {
    if draw.None? then xs else RemoveFirst(xs, draw.value)
  }

  /** `if (lat && lng)`: both query parameters are present and non-empty. */
  predicate DeepLink(lat: Option<string>, lng: Option<string>)
  {
    lat.Some? && lng.Some? && lat.value != "" && lng.value != ""
  }

  class MapView {
    /** The feature server's host name, read from the environment. */
    const host: string
    /** `map.getLayers()`, bottom to top. */
    var layers: seq<Layer>
    /** `MAPMODE` */
    var mapMode: string
    /** `drawMode`: "none", "box" (only inside the box-draw handler) or "Circle". */
    var drawMode: string
    /** The `draw` variable: the last interaction created, undefined before the first. */
    var draw: Option<Interaction>
    /** The drawing interactions attached to the map. */
    var interactions: seq<Interaction>
    /** How many `Draw` objects have been created. */
    var created: nat
    /** The drawing source's features, as the extents of the sketches. */
    var sketches: seq<seq<string>>
    /** The coordinate texts of the last jump requested. */
    var viewTarget: seq<string>
    /** Jumps whose animation has not yet called back. */
    var pendingAnimations: nat

    /**
     * Between events a drawing interaction is attached exactly while a box
     * can be drawn, and it is the one held in `draw`.
     */
    ghost predicate Valid()
      reads this
    {
      || (drawMode == "none" && interactions == [])
      || (drawMode == "Circle" && draw.Some? && draw.value.boxGeometry && draw.value.id < created &&
          interactions == [draw.value])
    }

    /**
     * Page load: the tile and drawing layers, mode "trees_reserves", the
     * initial `addInteraction()`, and at the end the jump to the `lat` and
     * `lng` query parameters (None where the page address lacks one) when
     * both are given and non-empty.
     */
    constructor (host: string, lat: Option<string>, lng: Option<string>)
      ensures this.host == host
      ensures layers == InitialLayers()
      ensures mapMode == TreesReserves && drawMode == "none"
      ensures draw == None && interactions == [] && created == 0
      ensures sketches == []
      ensures DeepLink(lat, lng) ==> viewTarget == [lat.value, lng.value] && pendingAnimations == 1
      ensures !DeepLink(lat, lng) ==> viewTarget == [] && pendingAnimations == 0
      ensures Valid()
    {
      this.host := host;
      layers := InitialLayers();
      mapMode := TreesReserves;
      drawMode := "none";
      draw := None;
      interactions := [];
      created := 0;
      sketches := [];
      viewTarget := [];
      pendingAnimations := 0;
      new;
      AddInteraction();
      if DeepLink(lat, lng) {
        ZoomToCoords([lat.value, lng.value]);
      }
    }

    /** `getLayers(definedExtent)` */
    method LoadLayers(extent: seq<string>)
      modifies this`layers
      ensures layers == LayersAfterLoad(old(layers), host, mapMode, extent)
    {
      var added := ModeLayers(host, mapMode, extent);
      if mapMode == TreesReserves {
        assert added == [added[0], added[1]];
        layers := layers + [added[0], added[1]];
      } else if mapMode == SolrSssi {
        assert added == [added[0], added[1]];
        layers := layers + [added[0], added[1]];
      } else if mapMode == AllData {
        assert added == [added[0], added[1], added[2], added[3]];
        layers := layers + [added[0], added[1], added[2], added[3]];
      } else {
        assert added == [];
      }
      assert layers == old(layers) + added;
      layers := WithoutDraw(layers);
    }

    /** `mapmodeSelection()`: the mode selector's value becomes the mode; nothing is loaded. */
    method SelectMode(value: string)
      modifies this`mapMode
      ensures mapMode == value
    {
      mapMode := value;
    }

    /** `addInteraction()` */
    method AddInteraction()
      modifies this`drawMode, this`draw, this`interactions, this`created
      ensures old(drawMode) == "none" ==>
        drawMode == "none" && draw == old(draw) && interactions == old(interactions) && created == old(created)
      ensures old(drawMode) != "none" ==>
        && drawMode == (if old(drawMode) == "box" then "Circle" else old(drawMode))
        && draw == Some(Draw(old(created), drawMode, old(drawMode) == "box"))
        && interactions == old(interactions) + [draw.value]
        && created == old(created) + 1
    {
      if drawMode != "none" {
        var boxGeometry := false;
        if drawMode == "box" {
          drawMode := "Circle";
          boxGeometry := true;
        }
        draw := Some(Draw(created, drawMode, boxGeometry));
        created := created + 1;
        interactions := interactions + [draw.value];
      }
    }

    /** The click handler of the box-draw button. */
    method BoxDrawClicked()
      requires Valid()
      modifies this`drawMode, this`draw, this`interactions, this`created
      ensures Valid()
      ensures drawMode == "Circle"
      ensures draw == Some(Draw(old(created), "Circle", true))
      ensures interactions == [draw.value]
      ensures created == old(created) + 1
    {
      interactions := RemoveInteraction(interactions, draw);
      drawMode := "box";
      AddInteraction();
    }

    /** The `drawstart` handler: the drawing source is cleared. */
    method DrawStarted()
      modifies this`sketches
      ensures sketches == []
    {
      sketches := [];
    }

    /**
     * The `drawend` handler for a sketch covering `extent`, after which the
     * interaction adds the sketch to the drawing source.
     */
    method DrawEnded(extent: seq<string>)
      requires Valid()
      modifies this`layers, this`drawMode, this`interactions, this`sketches
      ensures Valid()
      ensures layers == LayersAfterLoad(old(layers), host, mapMode, extent)
      ensures drawMode == "none" && interactions == []
      ensures sketches == old(sketches) + [extent]
    {
      LoadLayers(extent);
      drawMode := "none";
      interactions := RemoveInteraction(interactions, draw);
      sketches := sketches + [extent];
    }

    /**
     * The submit handler of the coordinate box: the trimmed text split on
     * ", " becomes the target of an animated jump.
     */
    method SubmitLatLng(input: string)
      modifies this`viewTarget, this`pendingAnimations
      ensures viewTarget == SplitLimit(Trim(input), ", ", 2)
      ensures pendingAnimations == old(pendingAnimations) + 1
    {
      var parts := SplitLimit(Trim(input), ", ", 2);
      ZoomToCoords(parts);
    }

    /** `zoomToCoords(lat, lng)`: start the animation; its callback comes later. */
    method ZoomToCoords(target: seq<string>)
      modifies this`viewTarget, this`pendingAnimations
      ensures viewTarget == target
      ensures pendingAnimations == old(pendingAnimations) + 1
    {
      viewTarget := target;
      pendingAnimations := pendingAnimations + 1;
    }

    /**
     * The animation's callback, with the view's extent at that moment: the
     * mode is forced to "all_data" and the layers are loaded.
     */
    method AnimationEnded(viewExtent: seq<string>)
      requires pendingAnimations > 0
      modifies this`mapMode, this`layers, this`pendingAnimations
      ensures mapMode == AllData
      ensures layers == LayersAfterLoad(old(layers), host, AllData, viewExtent)
      ensures pendingAnimations == old(pendingAnimations) - 1
    {
      pendingAnimations := pendingAnimations - 1;
      mapMode := AllData;
      LoadLayers(viewExtent);
    }
  }

  /**
   * The coordinate text becomes one or two parts: the whole trimmed text
   * when it holds no ", ", otherwise the pieces before and after its first
   * ", ", the second running up to the next ", " or to the end.
   */
  lemma LatLngParts(input: string)
    ensures var parts := SplitLimit(Trim(input), ", ", 2);
      && 1 <= |parts| <= 2
      && (forall k :: 0 <= k < |parts| ==> !Contains(parts[k], ", "))
      && (|parts| == 1 <==> !Contains(Trim(input), ", "))
      && (|parts| == 1 ==> parts[0] == Trim(input))
      && (|parts| == 2 ==> parts[0] + ", " + parts[1] <= Trim(input))
      && (|parts| == 2 ==> parts[0] + ", " + parts[1] == Trim(input)
                           || OccursAt(Trim(input), ", ", |parts[0]| + 2 + |parts[1]|))
  {
    var t := Trim(input);
    var all := Split(t, ", ");
    SplitPiecesFree(t, ", ");
    TwoParts(t);
    match IndexOf(t, ", ", 0)
    case None =>
      assert all == [t];
      assert !Contains(t, ", ");
    case Some(i) =>
      assert OccursAt(t, ", ", i);
      assert |all| >= 2;
  }

  /** Two parts are the text's start: the rest is empty or begins with ", ". */
  lemma TwoParts(t: string)
    ensures var parts := SplitLimit(t, ", ", 2);
      |parts| == 2 ==>
        && parts[0] + ", " + parts[1] <= t
        && (parts[0] + ", " + parts[1] == t || OccursAt(t, ", ", |parts[0]| + 2 + |parts[1]|))
  {
    if |Split(t, ", ")| >= 2 {
      SplitSecondPiece(t, ", ");
    }
  }

  /** Loading on a freshly loaded page leaves the tile layer followed by the mode's layers. */
  lemma LoadOnFreshPage(host: string, mode: string, extent: seq<string>)
    ensures Names(LayersAfterLoad(InitialLayers(), host, mode, extent)) == [Osm] +
      (if mode == TreesReserves then [Reserves, Tpo]
       else if mode == SolrSssi then [Solr, Sssi]
       else if mode == AllData then [Sssi, Reserves, Solr, Tpo]
       else [])
  {
    LoadedLayers(InitialLayers(), host, mode, extent);
    InitialLayersWithoutDraw();
  }

  /** Loading all data on a freshly loaded page: the tile layer and the four data layers. */
  lemma LoadAllOnFreshPage(host: string, extent: seq<string>)
    ensures Names(LayersAfterLoad(InitialLayers(), host, AllData, extent)) == [Osm, Sssi, Reserves, Solr, Tpo]
  {
    LoadOnFreshPage(host, AllData, extent);
    ModesDistinct();
  }

  lemma ModesDistinct()
    ensures AllData != TreesReserves && AllData != SolrSssi && SolrSssi != TreesReserves
  {
    assert AllData[0] != TreesReserves[0] && AllData[0] != SolrSssi[0] && SolrSssi[0] != TreesReserves[0];
  }

  /**
   * Selecting a mode and drawing one box on a freshly loaded page leaves the
   * tile layer followed by exactly the mode's layers, and no interaction.
   */
  method DrawBoxAfterSelecting(host: string, mode: string, extent: seq<string>)
    returns (names: seq<string>, finalDrawMode: string, attached: nat)
    ensures names == [Osm] +
      (if mode == TreesReserves then [Reserves, Tpo]
       else if mode == SolrSssi then [Solr, Sssi]
       else if mode == AllData then [Sssi, Reserves, Solr, Tpo]
       else [])
    ensures finalDrawMode == "none" && attached == 0
  {
    var m := new MapView(host, None, None);
    m.SelectMode(mode);
    m.BoxDrawClicked();
    m.DrawStarted();
    assert m.layers == InitialLayers();
    m.DrawEnded(extent);
    LoadOnFreshPage(host, mode, extent);
    names := Names(m.layers);
    finalDrawMode := m.drawMode;
    attached := |m.interactions|;
  }

  /**
   * A coordinate jump on a freshly loaded page ends with all four data
   * layers loaded, whatever mode was selected before.
   */
  method JumpAfterSelecting(host: string, mode: string, input: string, viewExtent: seq<string>)
    returns (names: seq<string>, finalMode: string)
    ensures names == [Osm, Sssi, Reserves, Solr, Tpo]
    ensures finalMode == AllData
  {
    var m := new MapView(host, None, None);
    m.SelectMode(mode);
    m.SubmitLatLng(input);
    assert m.layers == InitialLayers();
    m.AnimationEnded(viewExtent);
    LoadAllOnFreshPage(host, viewExtent);
    names := Names(m.layers);
    finalMode := m.mapMode;
  }

  /**
   * A page opened with both `lat` and `lng` in its address ends its jump
   * with all four data layers loaded, in mode "all_data".
   */
  method OpenDeepLink(host: string, lat: string, lng: string, viewExtent: seq<string>)
    returns (names: seq<string>, finalMode: string, target: seq<string>)
    requires lat != "" && lng != ""
    ensures target == [lat, lng]
    ensures names == [Osm, Sssi, Reserves, Solr, Tpo]
    ensures finalMode == AllData
  {
    var m := new MapView(host, Some(lat), Some(lng));
    target := m.viewTarget;
    assert m.layers == InitialLayers();
    m.AnimationEnded(viewExtent);
    LoadAllOnFreshPage(host, viewExtent);
    names := Names(m.layers);
    finalMode := m.mapMode;
  }
}
