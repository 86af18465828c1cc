/**
 * The text the map page builds from feature properties (map/map.js): the
 * hover tooltip of each feature, the readable layer names, the data-table
 * selection and the HTML table of one layer's features.
 *
 * A feature's properties are a JavaScript object: a map from names to
 * values whose keys also have an order (`Object.keys`). Values are kept as
 * the strings a template literal renders them as.
 */
module MapText {
  import opened Wrappers
  import opened Text
  import MapView

  /** A feature's properties: the names in `Object.keys` order, and their values. */
  datatype Feature = Feature(keys: seq<string>, values: map<string, string>)

  /** `feature.get(name)` / `row[name]`: undefined when the property is absent. */
  function Get(f: Feature, name: string): Option<string>
  {
    if name in f.values then Some(f.values[name]) else None
  }

  /** `${v}` in a template literal: undefined is written "undefined". */
  function Interpolate(v: Option<string>): string
  {
    match v
    case Some(s) => s
    case None => "undefined"
  }

  // ---------------------------------------------------------------------------
  // Tooltips
  // ---------------------------------------------------------------------------

  /**
   * What `getFeatureString` gives back: a text, undefined (a layer it has no
   * text for), or a TypeError thrown when an SSSI feature has no country.
   */
  datatype Tooltip = Tip(text: string) | NoTip | TypeError

  /** The fixed start of the tooltip of each data layer. */
  function TooltipPrefix(layer: string): string
  {
    if layer == MapView.Reserves then "RSPB Reserve: "
    else if layer == MapView.Tpo then "Tree protection order: "
    else if layer == MapView.Solr then "Solar farm application: "
    else "Site of Special Scientific Interest: "
  }

  /** The property each data layer's tooltip shows. */
  function TooltipProperty(layer: string): string
  {
    if layer == MapView.Reserves then "name"
    else if layer == MapView.Sssi then "country"
    else "description"
  }

  /** `getFeatureString(layer, feature)` for a layer named `layer`. */
  function FeatureString(layer: string, f: Feature): (r: Tooltip)
    ensures r == NoTip <==> layer !in MapView.DataLayerNames
    ensures r == TypeError <==> layer == MapView.Sssi && Get(f, "country").None?
    ensures r.Tip? ==> TooltipPrefix(layer) <= r.text
    ensures r.Tip? && layer != MapView.Sssi ==>
      r.text[|TooltipPrefix(layer)|..] == Interpolate(Get(f, TooltipProperty(layer)))
    ensures r.Tip? && layer == MapView.Sssi ==>
      var country := Get(f, "country").value;
      var shown := r.text[|TooltipPrefix(layer)|..];
      && |shown| == |country|
      && (|shown| > 0 ==>
            shown[1..] == country[1..] && IsUpperOrOther(shown[0]) && UpperAscii(country[0]) == shown[0])
  {
    if layer == MapView.Reserves then
      Tip("RSPB Reserve: " + Interpolate(Get(f, "name")))
    else if layer == MapView.Tpo then
      Tip("Tree protection order: " + Interpolate(Get(f, "description")))
    else if layer == MapView.Solr then
      Tip("Solar farm application: " + Interpolate(Get(f, "description")))
    else if layer == MapView.Sssi then
      match Get(f, "country")
      case None => TypeError
      case Some(country) => Tip("Site of Special Scientific Interest: " + CapitaliseFirst(country))
    else
      NoTip
  }

  /** A country whose first letter is already a capital is shown as it is. */
  lemma CapitalCountryUnchanged(f: Feature, country: string)
    requires Get(f, "country") == Some(country)
    requires |country| > 0 && IsUpperOrOther(country[0])
    ensures FeatureString(MapView.Sssi, f) == Tip(TooltipPrefix(MapView.Sssi) + country)
  {
  }

  /** One feature under the pointer, with the name of its layer, if it has one. */
  datatype Hit = Hit(layer: Option<string>, feature: Feature)

  /** The popup after a pointer move: its HTML when shown, hidden, or unchanged because a tooltip threw. */
  datatype Popup = Shown(html: string) | Hidden | Threw

  /** What a hit on a layer adds to the popup: its tooltip, or "" for undefined. */
  function TipText(h: Hit): string
  {
    match h.layer
    case None => ""
    case Some(layer) =>
      match FeatureString(layer, h.feature)
      case Tip(text) => text
      case _ => ""
  }

  /** `popupContent`: for each hit on a layer, its tooltip (undefined joins as "") then "<br>". */
  function PopupEntries(hits: seq<Hit>): (r: Option<seq<string>>)
    ensures r.Some? ==> |r.value| == 2 * |LayerHits(hits)|
  {
    if hits == [] then Some([])
    else
      var rest :- PopupEntries(hits[1..]);
      match hits[0].layer
      case None => Some(rest)
      case Some(layer) =>
        match FeatureString(layer, hits[0].feature)
        case TypeError => None
        case Tip(text) => Some([text, "<br>"] + rest)
        case NoTip => Some(["", "<br>"] + rest)
  }

  /**
   * The popup entries are, for each hit on a layer in the order met, its
   * tooltip and then "<br>".
   */
  lemma {:induction false} PopupEntriesText(hits: seq<Hit>)
    requires PopupEntries(hits).Some?
    ensures Alternating(PopupEntries(hits).value, LayerHits(hits), TipText)
  {
    if hits != [] {
      PopupEntriesStep(hits);
      PopupEntriesText(hits[1..]);
      if hits[0].layer.Some? {
        AlternatingCons(PopupEntries(hits[1..]).value, LayerHits(hits[1..]), TipText, hits[0]);
      }
    }
  }

  /** `e` holds, for each of `xs` in order, `text` of it and then "<br>". */
  ghost predicate Alternating<T>(e: seq<string>, xs: seq<T>, text: T -> string)
  {
    && |e| == 2 * |xs|
    && forall i :: 0 <= i < |xs| ==> e[2 * i] == text(xs[i]) && e[2 * i + 1] == "<br>"
  }

  lemma AlternatingCons<T>(e: seq<string>, xs: seq<T>, text: T -> string, x: T)
    requires Alternating(e, xs, text)
    ensures Alternating([text(x), "<br>"] + e, [x] + xs, text)
  {
    var e', xs' := [text(x), "<br>"] + e, [x] + xs;
    forall i | 1 <= i < |xs'|
      ensures e'[2 * i] == text(xs'[i]) && e'[2 * i + 1] == "<br>"
    {
      assert e'[2 * i] == e[2 * (i - 1)];
      assert e'[2 * i + 1] == e[2 * (i - 1) + 1];
    }
  }

  /** What the first hit adds to the popup entries and to the collected hits. */
  lemma PopupEntriesStep(hits: seq<Hit>)
    requires hits != [] && PopupEntries(hits).Some?
    ensures PopupEntries(hits[1..]).Some?
    ensures hits[0].layer.None? ==>
      PopupEntries(hits).value == PopupEntries(hits[1..]).value && LayerHits(hits) == LayerHits(hits[1..])
    ensures hits[0].layer.Some? ==>
      && PopupEntries(hits).value == [TipText(hits[0]), "<br>"] + PopupEntries(hits[1..]).value
      && LayerHits(hits) == [hits[0]] + LayerHits(hits[1..])
  {
  }

  /** The hits that `features` collects: those on a layer. */
  function LayerHits(hits: seq<Hit>): (r: seq<Hit>)
    ensures |r| <= |hits|
    ensures forall h :: h in r <==> h in hits && h.layer.Some?
  {
    if hits == [] then []
    else if hits[0].layer.Some? then [hits[0]] + LayerHits(hits[1..])
    else LayerHits(hits[1..])
  }

  /**
   * `features` keeps the hits in the order they are met: the hits of two
   * runs of callbacks are those of the first run, then those of the second.
   */
  lemma {:induction false} LayerHitsAppend(a: seq<Hit>, b: seq<Hit>)
    ensures LayerHits(a + b) == LayerHits(a) + LayerHits(b)
  {
    if a == [] {
      assert a + b == b;
    } else {
      assert (a + b)[0] == a[0];
      assert (a + b)[1..] == a[1..] + b;
      LayerHitsAppend(a[1..], b);
    }
  }

  /** The `pointermove` handler's effect on the popup for the features under the pointer. */
  function PointerMove(hits: seq<Hit>): Popup
  {
    match PopupEntries(hits)
    case None => Threw
    case Some(entries) => if LayerHits(hits) == [] then Hidden else Shown(Concat(entries))
  }

  /**
   * The popup throws exactly when an SSSI feature without a country is under
   * the pointer; otherwise it is hidden exactly when no hit is on a layer.
   */
  lemma {:induction false} PointerMoveOutcome(hits: seq<Hit>)
    ensures PointerMove(hits) == Threw <==>
      exists h :: h in hits && h.layer == Some(MapView.Sssi) && Get(h.feature, "country").None?
    ensures PointerMove(hits) == Hidden <==>
      PointerMove(hits) != Threw && forall h :: h in hits ==> h.layer.None?
  {
    PopupEntriesThrow(hits);
    LayerHitsEmpty(hits);
  }

  lemma {:induction false} PopupEntriesThrow(hits: seq<Hit>)
    ensures PopupEntries(hits).None? <==>
      exists h :: h in hits && h.layer == Some(MapView.Sssi) && Get(h.feature, "country").None?
  {
    if hits != [] {
      PopupEntriesThrow(hits[1..]);
      var h := hits[0];
      assert forall x :: x in hits <==> x == h || x in hits[1..];
      if h.layer.Some? && h.layer.value == MapView.Sssi && Get(h.feature, "country").None? {
        assert FeatureString(h.layer.value, h.feature) == TypeError;
      }
    }
  }

  lemma {:induction false} LayerHitsEmpty(hits: seq<Hit>)
    ensures LayerHits(hits) == [] <==> forall h :: h in hits ==> h.layer.None?
  {
    if hits != [] {
      LayerHitsEmpty(hits[1..]);
      assert forall x :: x in hits <==> x == hits[0] || x in hits[1..];
    }
  }

  // ---------------------------------------------------------------------------
  // The data table
  // ---------------------------------------------------------------------------

  /** `getReadableLayerName(name)`: the heading of a data layer's table. */
  function ReadableLayerName(name: string): (r: Option<string>)
    ensures r.Some? <==> name in MapView.DataLayerNames
    ensures r.Some? ==> |r.value| > 0
  {
    if name == MapView.Solr then Some("Solar Farm Application")
    else if name == MapView.Sssi then Some("SSSI Locations")
    else if name == MapView.Reserves then Some("RSPB Reserves")
    else if name == MapView.Tpo then Some("Tree Protection Orders")
    else None
  }

  /** Different data layers get different headings. */
  lemma ReadableNamesDistinct(a: string, b: string)
    requires a in MapView.DataLayerNames && b in MapView.DataLayerNames && a != b
    ensures ReadableLayerName(a) != ReadableLayerName(b)
  {
  }

  /** A layer of the map with the properties of its source's features: `{[name]: rows}`. */
  datatype LayerData = LayerData(name: string, rows: seq<Feature>)

  /** The names of the layers, in order. */
  function LayerNames(ls: seq<LayerData>): seq<string>
  {
    seq(|ls|, i requires 0 <= i < |ls| => ls[i].name)
  }

  /** `dataTable()`: the layers, in map order, whose name is one of the four data layers. */
  function DataTable(layers: seq<LayerData>): (r: seq<LayerData>)
    ensures |r| <= |layers|
    ensures forall l :: l in r ==> l in layers && l.name in MapView.DataLayerNames
  {
    if layers == [] then []
    else if layers[0].name in MapView.DataLayerNames then [layers[0]] + DataTable(layers[1..])
    else DataTable(layers[1..])
  }

  /** Filtering the layers of two stretches of the map is filtering each, in order. */
  lemma {:induction false} DataTableAppend(a: seq<LayerData>, b: seq<LayerData>)
    ensures DataTable(a + b) == DataTable(a) + DataTable(b)
  {
    if a == [] {
      assert a + b == b;
    } else {
      assert (a + b)[1..] == a[1..] + b;
      DataTableAppend(a[1..], b);
    }
  }

  /** Each data layer keeps all its entries and every other layer loses all of them. */
  lemma {:induction false} DataTableCounts(layers: seq<LayerData>, n: string)
    ensures multiset(LayerNames(DataTable(layers)))[n] ==
      if n in MapView.DataLayerNames then multiset(LayerNames(layers))[n] else 0
  {
    if layers != [] {
      DataTableCounts(layers[1..], n);
      LayerNamesCons(layers[0], layers[1..]);
      assert layers == [layers[0]] + layers[1..];
      if layers[0].name in MapView.DataLayerNames {
        assert DataTable(layers) == [layers[0]] + DataTable(layers[1..]);
        LayerNamesCons(layers[0], DataTable(layers[1..]));
      }
    }
  }

  lemma LayerNamesCons(l: LayerData, ls: seq<LayerData>)
    ensures LayerNames([l] + ls) == [l.name] + LayerNames(ls)
  {
    assert forall i :: 0 <= i < |ls| ==> ([l] + ls)[i + 1] == ls[i];
  }

  // ---------------------------------------------------------------------------
  // Columns: the ordered union of the rows' keys
  // ---------------------------------------------------------------------------

  /** `Object.keys(obj).forEach(key => all.add(key))`: a set keeps insertion order. */
  function AddKeys(all: seq<string>, keys: seq<string>): seq<string>
    decreases |keys|
  {
    if keys == [] then all
    else AddKeys(if keys[0] in all then all else all + [keys[0]], keys[1..])
  }

  /** The `reduce` over the rows, from an empty set. */
  function ReduceKeys(all: seq<string>, rows: seq<Feature>): seq<string>
    decreases |rows|
  {
    if rows == [] then all else ReduceKeys(AddKeys(all, rows[0].keys), rows[1..])
  }

  /** `keys`: the table's columns. */
  function ColumnKeys(rows: seq<Feature>): seq<string>
  {
    ReduceKeys([], rows)
  }

  /** All the rows' keys, row after row. */
  function AllKeys(rows: seq<Feature>): seq<string>
  {
    if rows == [] then [] else rows[0].keys + AllKeys(rows[1..])
  }

  /** `xs` without the elements of `s`. */
  function Without(xs: seq<string>, s: set<string>): (r: seq<string>)
    ensures |r| <= |xs|
    ensures forall x :: x in r <==> x in xs && x !in s
  {
    if xs == [] then []
    else if xs[0] in s then Without(xs[1..], s)
    else [xs[0]] + Without(xs[1..], s)
  }

  /**
   * The first occurrence of each element, in order: the first element, then
   * the rest with every copy of it taken out.
   */
  function Dedup(xs: seq<string>): (r: seq<string>)
    decreases |xs|
    ensures forall x :: x in r <==> x in xs
    ensures forall i, j :: 0 <= i < j < |r| ==> r[i] != r[j]
  {
    if xs == [] then []
    else
      var rest := Dedup(Without(xs[1..], {xs[0]}));
      assert forall i :: 0 < i < |[xs[0]] + rest| ==> ([xs[0]] + rest)[i] == rest[i - 1];
      [xs[0]] + rest
  }

  lemma {:induction false} WithoutWithout(xs: seq<string>, s: set<string>, x: string)
    ensures Without(Without(xs, s), {x}) == Without(xs, s + {x})
  {
    if xs != [] {
      WithoutWithout(xs[1..], s, x);
    }
  }

  lemma {:induction false} WithoutNothing(xs: seq<string>)
    ensures Without(xs, {}) == xs
  {
    if xs != [] {
      WithoutNothing(xs[1..]);
    }
  }

  function Elements(xs: seq<string>): (r: set<string>)
    ensures forall x :: x in r <==> x in xs
  {
    set x | x in xs
  }

  /** Adding keys to a set appends the new ones in first-occurrence order. */
  lemma {:induction false} AddKeysDedup(all: seq<string>, keys: seq<string>)
    ensures AddKeys(all, keys) == all + Dedup(Without(keys, Elements(all)))
    decreases |keys|
  {
    if keys == [] {
    } else if keys[0] in all {
      AddKeysDedup(all, keys[1..]);
    } else {
      AddKeysFresh(all, keys);
    }
  }

  lemma {:induction false} AddKeysFresh(all: seq<string>, keys: seq<string>)
    requires keys != [] && keys[0] !in all
    ensures AddKeys(all, keys) == all + Dedup(Without(keys, Elements(all)))
    decreases |keys|, 0
  {
    var s, x := Elements(all), keys[0];
    var w := Without(keys[1..], s);
    var rest := Dedup(Without(w, {x}));
    AddKeysDedup(all + [x], keys[1..]);
    ElementsSnoc(all, x);
    WithoutWithout(keys[1..], s, x);
    AddKeysNew(all, keys);
    WithoutKeeps(keys, s);
    DedupCons(x, w);
    AppendAssoc(all, [x], rest);
  }

  lemma AddKeysNew(all: seq<string>, keys: seq<string>)
    requires keys != [] && keys[0] !in all
    ensures AddKeys(all, keys) == AddKeys(all + [keys[0]], keys[1..])
  {
  }

  lemma WithoutKeeps(xs: seq<string>, s: set<string>)
    requires xs != [] && xs[0] !in s
    ensures Without(xs, s) == [xs[0]] + Without(xs[1..], s)
  {
  }

  lemma ElementsSnoc(xs: seq<string>, x: string)
    ensures Elements(xs + [x]) == Elements(xs) + {x}
  {
  }

  lemma DedupCons(x: string, w: seq<string>)
    ensures Dedup([x] + w) == [x] + Dedup(Without(w, {x}))
  {
    assert ([x] + w)[1..] == w;
  }

  lemma {:induction false} ReduceKeysAll(all: seq<string>, rows: seq<Feature>)
    ensures ReduceKeys(all, rows) == AddKeys(all, AllKeys(rows))
    decreases |rows|
  {
    if rows != [] {
      ReduceKeysAll(AddKeys(all, rows[0].keys), rows[1..]);
      AddKeysAppend(all, rows[0].keys, AllKeys(rows[1..]));
    }
  }

  lemma {:induction false} AddKeysAppend(all: seq<string>, a: seq<string>, b: seq<string>)
    ensures AddKeys(all, a + b) == AddKeys(AddKeys(all, a), b)
    decreases |a|
  {
    if a == [] {
      assert a + b == b;
    } else {
      assert (a + b)[1..] == a[1..] + b;
      AddKeysAppend(if a[0] in all then all else all + [a[0]], a[1..], b);
    }
  }

  /**
   * The columns are the rows' keys in order of first occurrence, each once:
   * every key of every row is a column and every column is some row's key.
   */
  lemma ColumnKeysFirstOccurrence(rows: seq<Feature>)
    ensures ColumnKeys(rows) == Dedup(AllKeys(rows))
    ensures forall i, j :: 0 <= i < j < |ColumnKeys(rows)| ==> ColumnKeys(rows)[i] != ColumnKeys(rows)[j]
    ensures forall k :: k in ColumnKeys(rows) <==> exists r :: r in rows && k in r.keys
  {
    ReduceKeysAll([], rows);
    AddKeysDedup([], AllKeys(rows));
    var none: seq<string> := [];
    assert Elements(none) == {};
    WithoutNothing(AllKeys(rows));
    AllKeysMembers(rows);
  }

  lemma {:induction false} AllKeysMembers(rows: seq<Feature>)
    ensures forall k :: k in AllKeys(rows) <==> exists r :: r in rows && k in r.keys
  {
    if rows != [] {
      AllKeysMembers(rows[1..]);
      assert forall r :: r in rows <==> r == rows[0] || r in rows[1..];
    }
  }

  // ---------------------------------------------------------------------------
  // The HTML of one layer's table
  // ---------------------------------------------------------------------------

  /** `items.map(x => `<tag>${x}</tag>`).join('')` */
  function Tagged(tag: string, items: seq<string>): string
  {
    Concat(TagEach(tag, items))
  }

  function TagEach(tag: string, items: seq<string>): (r: seq<string>)
    ensures |r| == |items|
  {
    seq(|items|, i requires 0 <= i < |items| => "<" + tag + ">" + items[i] + "</" + tag + ">")
  }

  /** The cells of one row: the row's value under each column, undefined ones written "undefined". */
  function CellValues(row: Feature, keys: seq<string>): (r: seq<string>)
    ensures |r| == |keys|
  {
    seq(|keys|, i requires 0 <= i < |keys| => Interpolate(Get(row, keys[i])))
  }

  /** The `tbody` array: one `<tr>` of `<td>` cells per row. */
  function BodyRows(rows: seq<Feature>, keys: seq<string>): (r: seq<string>)
    ensures |r| == |rows|
  {
    seq(|rows|, i requires 0 <= i < |rows| => "<tr>" + Tagged("td", CellValues(rows[i], keys)) + "</tr>")
  }

  /**
   * `arrayToTable({[name]: rows})`: the layer's readable heading, the table
   * opening with id `table_<name>`, the header row of the columns, then the
   * body rows. The body rows array is interpolated, so it is written joined
   * with commas, and the body is closed by `</body>`.
   */
  function ArrayToTable(data: LayerData): (r: string)
    ensures r == Heading(data.name) + TableOpening(data.name) + Tagged("th", ColumnKeys(data.rows)) +
      HeadToBody + Join(BodyRows(data.rows, ColumnKeys(data.rows)), ",") + TableEnd
    ensures Heading(data.name) <= r
    ensures |r| >= |TableEnd| && r[|r| - |TableEnd|..] == TableEnd
  {
    var keys := ColumnKeys(data.rows);
    var heading, opening, header := Heading(data.name), TableOpening(data.name), Tagged("th", keys);
    var rows := Join(BodyRows(data.rows, keys), ",");
    Framed(heading, opening + header + HeadToBody + rows, TableEnd);
    AppendAssoc(heading, opening, header);
    AppendAssoc(heading, opening + header, HeadToBody);
    AppendAssoc(heading, opening + header + HeadToBody, rows);
    heading + opening + header + HeadToBody + rows + TableEnd
  }

  /** A text framed by `head` and `tail` starts with `head` and ends with `tail`. */
  lemma Framed(head: string, middle: string, tail: string)
    ensures head <= head + middle + tail
    ensures (head + middle + tail)[|head + middle + tail| - |tail|..] == tail
  {
    assert (head + middle + tail)[..|head|] == head;
  }

  /** The heading above a layer's table: its readable name. */
  function Heading(name: string): string
  {
    "\n      <h2>" + Interpolate(ReadableLayerName(name)) + "</h2>"
  }

  /** The table's opening tags up to the header cells; the id is `table_` and the layer's name. */
  function TableOpening(name: string): string
  {
    "\n      <table class=\"layertable\" id=\"table_" + name + "\">\n          <thead><tr>"
  }

  /** Between the header cells and the body rows. */
  const HeadToBody := "</tr></thead>\n          <tbody>"

  /** How `arrayToTable` closes its text: the body is closed with `</body>`, not `</tbody>`. */
  const TableEnd := "</body>\n      </table>\n    "

  /** `allData.map(arrayToTable)` */
  function Tables(ls: seq<LayerData>): (r: seq<string>)
    ensures |r| == |ls|
  {
    seq(|ls|, i requires 0 <= i < |ls| => ArrayToTable(ls[i]))
  }

  /** `allData.map(arrayToTable).join("")`: the table view's HTML. */
  function TableView(layers: seq<LayerData>): (r: string)
    ensures r == "" <==> DataTable(layers) == []
  {
    var html := Tables(DataTable(layers));
    if html == [] then ""
    else
      ConcatCons(html);
      Concat(html)
  }

  /**
   * The view of two stretches of the map is the view of the first followed
   * by the view of the second: each data layer's table, in map order.
   */
  lemma TableViewAppend(a: seq<LayerData>, b: seq<LayerData>)
    ensures TableView(a + b) == TableView(a) + TableView(b)
  {
    DataTableAppend(a, b);
    var ta, tb := DataTable(a), DataTable(b);
    TablesAppend(ta, tb);
    ConcatAppend(Tables(ta), Tables(tb));
    TableViewConcat(a);
    TableViewConcat(b);
    TableViewConcat(a + b);
  }

  lemma TableViewConcat(layers: seq<LayerData>)
    ensures TableView(layers) == Concat(Tables(DataTable(layers)))
  {
  }

  lemma TablesAppend(a: seq<LayerData>, b: seq<LayerData>)
    ensures Tables(a + b) == Tables(a) + Tables(b)
  {
    forall i | 0 <= i < |a + b|
      ensures Tables(a + b)[i] == (Tables(a) + Tables(b))[i]
    {
      if i < |a| {
        assert (a + b)[i] == a[i];
      } else {
        assert (a + b)[i] == b[i - |a|];
      }
    }
  }

  /** One layer shows its table exactly when it is a data layer. */
  lemma TableViewOne(l: LayerData)
    ensures TableView([l]) == if l.name in MapView.DataLayerNames then ArrayToTable(l) else ""
  {
    if l.name in MapView.DataLayerNames {
      assert DataTable([l]) == [l] + DataTable([]);
      assert Tables([l]) == [ArrayToTable(l)];
    }
  }

  /**
   * Reads back `<open>v</close><open>v</close>…` into the values, for values
   * that hold no '<'.
   */
  function ParseTagged(s: string, open: string, close: string): Option<seq<string>>
    requires |open| > 0
    decreases |s|
  {
    if s == [] then Some([])
    else if |s| < |open| || s[..|open|] != open then None
    else
      var rest := s[|open|..];
      var i := UpTo(rest, '<');
      var after := rest[i..];
      if |after| < |close| || after[..|close|] != close then None
      else
        var vs :- ParseTagged(after[|close|..], open, close);
        Some([rest[..i]] + vs)
  }

  /** The index of the first `c` in `s`, or `|s|` if there is none. */
  function UpTo(s: string, c: char): (r: nat)
    ensures r <= |s|
    ensures c !in s[..r]
    ensures r < |s| ==> s[r] == c
  {
    if s == [] || s[0] == c then 0
    else
      var r := 1 + UpTo(s[1..], c);
      assert s[..r] == [s[0]] + s[1..][..r - 1];
      r
  }

  lemma UpToStops(v: string, c: char, tail: string)
    requires c !in v && |tail| > 0 && tail[0] == c
    ensures UpTo(v + tail, c) == |v|
  {
    var s := v + tail;
    assert s[|v|] == c;
    assert s[..|v|] == v;
  }

  /**
   * The tagged text of values holding no '<' reads back as those values: one
   * element per value, in order.
   */
  lemma {:induction false} TaggedRoundTrip(tag: string, items: seq<string>)
    requires forall i :: 0 <= i < |items| ==> '<' !in items[i]
    ensures ParseTagged(Tagged(tag, items), "<" + tag + ">", "</" + tag + ">") == Some(items)
  {
    if items != [] {
      assert '<' !in items[0];
      assert forall i :: 0 <= i < |items[1..]| ==> items[1..][i] == items[i + 1];
      TaggedRoundTrip(tag, items[1..]);
      TaggedNext(tag, items);
    }
  }

  /** Reading back one more value in front of values that already read back. */
  lemma TaggedNext(tag: string, items: seq<string>)
    requires items != [] && '<' !in items[0]
    requires ParseTagged(Tagged(tag, items[1..]), "<" + tag + ">", "</" + tag + ">") == Some(items[1..])
    ensures ParseTagged(Tagged(tag, items), "<" + tag + ">", "</" + tag + ">") == Some(items)
  {
    var open, close := "<" + tag + ">", "</" + tag + ">";
    var rest := Tagged(tag, items[1..]);
    TaggedCons(tag, items);
    assert [items[0]] + items[1..] == items;
    TaggedStep(open, close, items[0], rest, items[1..], Tagged(tag, items));
  }

  lemma TaggedCons(tag: string, items: seq<string>)
    requires items != []
    ensures Tagged(tag, items) == "<" + tag + ">" + (items[0] + ("</" + tag + ">" + Tagged(tag, items[1..])))
  {
    var cells := TagEach(tag, items);
    assert cells[1..] == TagEach(tag, items[1..]);
    ConcatCons(cells);
  }

  /** One step of the read-back: the first element, and the rest of the text after it. */
  lemma TaggedStep(open: string, close: string, v: string, rest: string, vs: seq<string>, s: string)
    requires |open| > 0 && |close| > 0 && close[0] == '<' && '<' !in v
    requires ParseTagged(rest, open, close) == Some(vs)
    requires s == open + (v + (close + rest))
    ensures ParseTagged(s, open, close) == Some([v] + vs)
  {
    assert s[..|open|] == open;
    var r := s[|open|..];
    assert r == v + (close + rest);
    UpToStops(v, '<', close + rest);
    assert r[|v|..] == close + rest;
    assert r[..|v|] == v;
    assert (close + rest)[..|close|] == close;
    assert (close + rest)[|close|..] == rest;
  }

  /**
   * The header of a layer's table reads back as its columns: one `<th>` per
   * column, in column order (given row keys that hold no '<').
   */
  lemma TableHeader(data: LayerData)
    requires forall r, k :: r in data.rows && k in r.keys ==> '<' !in k
    ensures ParseTagged(Tagged("th", ColumnKeys(data.rows)), "<th>", "</th>") == Some(ColumnKeys(data.rows))
  {
    var keys := ColumnKeys(data.rows);
    ColumnKeysFirstOccurrence(data.rows);
    EachFree(keys);
    TaggedRoundTrip("th", keys);
    TagLiterals();
  }

  lemma EachFree(xs: seq<string>)
    requires forall x :: x in xs ==> '<' !in x
    ensures forall j :: 0 <= j < |xs| ==> '<' !in xs[j]
  {
  }

  /**
   * The cells of one row under the columns `keys` read back as the row's
   * value or "undefined" for each column, in column order.
   */
  lemma RowCells(row: Feature, keys: seq<string>)
    requires forall k :: k in row.values ==> '<' !in row.values[k]
    ensures var cells := ParseTagged(Tagged("td", CellValues(row, keys)), "<td>", "</td>");
      && cells.Some? && |cells.value| == |keys|
      && forall j :: 0 <= j < |keys| ==>
           cells.value[j] == if keys[j] in row.values then row.values[keys[j]] else "undefined"
  {
    var cells := CellValues(row, keys);
    CellsFree(row, keys);
    TaggedRoundTrip("td", cells);
    TagLiterals();
    forall j | 0 <= j < |keys|
      ensures cells[j] == if keys[j] in row.values then row.values[keys[j]] else "undefined"
    {
    }
  }

  /** The tags of header and data cells, spelled out. */
  lemma TagLiterals()
    ensures "<" + "td" + ">" == "<td>" && "</" + "td" + ">" == "</td>"
    ensures "<" + "th" + ">" == "<th>" && "</" + "th" + ">" == "</th>"
  {
  }

  /**
   * Row `i` of a layer's table is a `<tr>` of one `<td>` per column, in
   * column order, holding the row's value or "undefined" where the row lacks
   * the key (given values that hold no '<').
   */
  lemma TableRow(data: LayerData, i: nat)
    requires i < |data.rows|
    requires forall k :: k in data.rows[i].values ==> '<' !in data.rows[i].values[k]
    ensures BodyRows(data.rows, ColumnKeys(data.rows))[i] ==
      "<tr>" + Tagged("td", CellValues(data.rows[i], ColumnKeys(data.rows))) + "</tr>"
    ensures var cells := ParseTagged(Tagged("td", CellValues(data.rows[i], ColumnKeys(data.rows))), "<td>", "</td>");
      && cells.Some? && |cells.value| == |ColumnKeys(data.rows)|
      && forall j :: 0 <= j < |ColumnKeys(data.rows)| ==>
           cells.value[j] == if ColumnKeys(data.rows)[j] in data.rows[i].values
                             then data.rows[i].values[ColumnKeys(data.rows)[j]] else "undefined"
  {
    RowCells(data.rows[i], ColumnKeys(data.rows));
  }

  lemma CellsFree(row: Feature, keys: seq<string>)
    requires forall k :: k in row.values ==> '<' !in row.values[k]
    ensures forall j :: 0 <= j < |keys| ==> '<' !in CellValues(row, keys)[j]
  {
    forall j | 0 <= j < |keys| ensures '<' !in CellValues(row, keys)[j] {
      assert CellValues(row, keys)[j] == Interpolate(Get(row, keys[j]));
    }
  }
}
