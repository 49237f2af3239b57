/** The pure settings logic of `MapViewSettings`: the info fields, which
    map styles are enabled, the style parameters and the style part of the
    map-info response. A view and the configuration are dictionaries of
    Python values. */
module MapSettings {
  import opened Results

  /** The Python values a view dictionary holds. */
  datatype PyValue =
    | Str(s: string)
    | Bool(b: bool)
    | Int(i: int)
    | List(items: seq<PyValue>)
    | Tuple(items: seq<PyValue>)
    | NoneValue

  type Dict = map<string, PyValue>

  /** Python's `bool(v)`. */
  predicate Truthy(v: PyValue) {
    match v
    case Str(s) => |s| > 0
    case Bool(b) => b
    case Int(i) => i != 0
    case List(items) => |items| > 0
    case Tuple(items) => |items| > 0
    case NoneValue => false
  }

  /** `int(b)`: Python compares booleans as the integers 0 and 1. */
  function BoolInt(b: bool): int {
    if b then 1 else 0
  }

  /** Python's `==` on these values: `True == 1`, and a list never equals a
      tuple. */
  predicate PyEq(a: PyValue, b: PyValue)
    decreases a
  {
    match (a, b)
    case (Str(x), Str(y)) => x == y
    case (Bool(x), Bool(y)) => x == y
    case (Int(x), Int(y)) => x == y
    case (Bool(x), Int(y)) => BoolInt(x) == y
    case (Int(x), Bool(y)) => x == BoolInt(y)
    case (List(xs), List(ys)) => |xs| == |ys| && forall i :: 0 <= i < |xs| ==> PyEq(xs[i], ys[i])
    case (Tuple(xs), Tuple(ys)) => |xs| == |ys| && forall i :: 0 <= i < |xs| ==> PyEq(xs[i], ys[i])
    case (NoneValue, NoneValue) => true
    case _ => false
  }

  /** Every value equals itself. */
  lemma {:induction false} PyEqReflexive(a: PyValue)
    ensures PyEq(a, a)
    decreases a
  {
    match a
    case List(xs) =>
      forall i | 0 <= i < |xs| ensures PyEq(xs[i], xs[i]) {
        PyEqReflexive(xs[i]);
      }
    case Tuple(xs) =>
      forall i | 0 <= i < |xs| ensures PyEq(xs[i], xs[i]) {
        PyEqReflexive(xs[i]);
      }
    case _ =>
  }

  /** Python's `v in xs` on a list. */
  predicate PyIn(v: PyValue, xs: seq<PyValue>) {
    exists i :: 0 <= i < |xs| && PyEq(xs[i], v)
  }

  /** `bool(view.get(key, False))`. */
  predicate Flag(view: Dict, key: string) {
    key in view && Truthy(view[key])
  }

  // ---------------------------------------------------------------------
  // title and fields

  const TitleKey := "utf_grid_title"
  const FieldsKey := "utf_grid_fields"

  /** The `title` property: `view['utf_grid_title']`. */
  function Title(view: Dict): (r: Result<PyValue, PyError>)
    ensures r.Ok? <==> TitleKey in view
    ensures r.Ok? ==> r.value == view[TitleKey]
    ensures r.Err? ==> r.error == KeyError(TitleKey)
  {
    if TitleKey in view then Ok(view[TitleKey]) else Err(KeyError(TitleKey))
  }

  /** Python's `list(v)`: a list or tuple gives its items, a string its
      one-character strings; other values are not iterable. */
  function ListOf(v: PyValue): (r: Result<seq<PyValue>, PyError>)
    ensures r.Err? <==> !(v.List? || v.Tuple? || v.Str?)
    ensures r.Err? ==> r.error == TypeError
    ensures v.List? || v.Tuple? ==> r == Ok(v.items)
    ensures v.Str? ==> |r.value| == |v.s| && forall i :: 0 <= i < |v.s| ==> r.value[i] == Str([v.s[i]])
  {
    match v
    case List(items) => Ok(items)
    case Tuple(items) => Ok(items)
    case Str(s) => Ok(seq(|s|, i requires 0 <= i < |s| => Str([s[i]])))
    case _ => Err(TypeError)
  }

  /** The field list the view starts from: `list(view.get('utf_grid_fields', []))`. */
  function InfoFields(view: Dict): Result<seq<PyValue>, PyError> {
    if FieldsKey in view then ListOf(view[FieldsKey]) else Ok([])
  }

  /** The `fields` property: the view's fields in order, with the title
      appended when no field equals it. The field list is built before the
      title is read, so a field value that is not iterable is reported
      before a missing title. */
  function Fields(view: Dict): (r: Result<seq<PyValue>, PyError>)
    ensures InfoFields(view).Err? ==> r == Err(InfoFields(view).error)
    ensures InfoFields(view).Ok? && TitleKey !in view ==> r == Err(KeyError(TitleKey))
    ensures r.Ok? <==> InfoFields(view).Ok? && TitleKey in view
    ensures r.Ok? ==> var info := InfoFields(view).value;
      && |info| <= |r.value| <= |info| + 1
      && r.value[..|info|] == info
      && PyIn(view[TitleKey], r.value)
      && (|r.value| == |info| <==> PyIn(view[TitleKey], info))
  {
    var info :- InfoFields(view);
    var title :- Title(view);
    if PyIn(title, info) then Ok(info)
    else
      PyEqReflexive(title);
      assert (info + [title])[|info|] == title;
      Ok(info + [title])
  }

  /** Storing the fields back in the view changes nothing: the title is
      already there and is not appended a second time. */
  lemma FieldsFixpoint(view: Dict)
    requires Fields(view).Ok?
    ensures Fields(view[FieldsKey := List(Fields(view).value)]) == Fields(view)
  {
    var fs := Fields(view).value;
    var view' := view[FieldsKey := List(fs)];
    assert InfoFields(view') == Ok(fs);
    assert view'[TitleKey] == view[TitleKey];
    assert PyIn(view[TitleKey], fs);
  }

  lemma KeysDistinct()
    ensures TitleKey != FieldsKey
  {
    assert TitleKey[9] != FieldsKey[9];
  }

  /** A string given as the field list is taken character by character,
      and a title equal to one of them is not appended. */
  lemma StringFields()
    ensures Fields(map[TitleKey := Str("a"), FieldsKey := Str("ab")]) == Ok([Str("a"), Str("b")])
  {
    KeysDistinct();
    var view := map[TitleKey := Str("a"), FieldsKey := Str("ab")];
    var info := ListOf(Str("ab")).value;
    assert info[0] == Str("a") && info[1] == Str("b");
    assert info == [Str("a"), Str("b")];
    assert InfoFields(view) == Ok(info);
    assert PyEq(info[0], Str("a"));
  }

  /** Python's `True == 1`: a title `True` counts as present among the
      fields `[1]`. */
  lemma BoolTitle()
    ensures Fields(map[TitleKey := Bool(true), FieldsKey := List([Int(1)])]) == Ok([Int(1)])
  {
    KeysDistinct();
    assert PyEq([Int(1)][0], Bool(true));
  }

  /** Without a title the fields cannot be built. */
  lemma MissingTitle()
    ensures Fields(map[FieldsKey := List([Str("a")])]) == Err(KeyError(TitleKey))
  {
    KeysDistinct();
  }

  /** A field list that is not iterable fails before the title is read. */
  lemma NotIterable()
    ensures Fields(map[FieldsKey := Int(3)]) == Err(TypeError)
  {
  }

  // ---------------------------------------------------------------------
  // Enabled styles

  /** The three map styles, in the order `create_map_info` handles them. */
  datatype Style = Heatmap | Gridded | Plot

  /** The name of a style in keys and in the response. */
  function StyleName(style: Style): string {
    match style
    case Heatmap => "heatmap"
    case Gridded => "gridded"
    case Plot => "plot"
  }

  /** The view flag that switches a style on. */
  function EnableKey(style: Style): string {
    match style
    case Heatmap => "enable_heat_map"
    case Gridded => "enable_grid_map"
    case Plot => "enable_plot_map"
  }

  predicate Enabled(view: Dict, style: Style) {
    Flag(view, EnableKey(style))
  }

  /** `is_enabled`: some map style is switched on. */
  predicate IsEnabled(view: Dict) {
    Flag(view, "enable_plot_map") || Flag(view, "enable_grid_map") || Flag(view, "enable_heat_map")
  }

  /** The view is enabled exactly when one of the three styles is. */
  lemma IsEnabledStyles(view: Dict)
    ensures IsEnabled(view) <==> exists s: Style :: Enabled(view, s)
  {
    if IsEnabled(view) {
      if Flag(view, "enable_plot_map") { assert Enabled(view, Plot); }
      else if Flag(view, "enable_grid_map") { assert Enabled(view, Gridded); }
      else { assert Enabled(view, Heatmap); }
    }
  }

  // ---------------------------------------------------------------------
  // get_style_params

  /** The view setting of a style parameter. */
  function ViewKey(style: string, name: string): string {
    style + "_" + name
  }

  /** The configuration default of a style parameter. */
  function ConfigKey(style: string, name: string): string {
    "versioned_tilemap.style." + style + "." + name
  }

  /** The value a parameter takes: the view's setting when it has one,
      else the configured default. */
  function ParamValue(view: Dict, config: Dict, style: string, name: string): PyValue
    requires ConfigKey(style, name) in config
  {
    var key := ViewKey(style, name);
    if key in view then view[key] else config[ConfigKey(style, name)]
  }

  /** `get_style_params(style, names)`. The default is read from the
      configuration before the view is consulted, so a missing default
      raises `KeyError` even when the view sets the parameter; the first
      name, in order, without a default is the one reported. */
  function GetStyleParams(view: Dict, config: Dict, style: string, names: seq<string>): (r: Result<Dict, PyError>)
    ensures r.Ok? <==> forall i :: 0 <= i < |names| ==> ConfigKey(style, names[i]) in config
    ensures r.Ok? ==> forall n :: n in r.value <==> n in names
    ensures r.Ok? ==> forall i :: 0 <= i < |names| ==>
      r.value[names[i]] == ParamValue(view, config, style, names[i])
    ensures r.Err? ==> exists i :: (0 <= i < |names| && ConfigKey(style, names[i]) !in config
      && (forall j :: 0 <= j < i ==> ConfigKey(style, names[j]) in config)
      && r.error == KeyError(ConfigKey(style, names[i])))
    decreases |names|
  {
    if |names| == 0 then Ok(map[])
    else
      var name := names[0];
      var key := ConfigKey(style, name);
      if key !in config then Err(KeyError(key))
      else
        var rest := GetStyleParams(view, config, style, names[1..]);
        if rest.Err? then
          assert forall i :: 1 <= i < |names| ==> names[1..][i - 1] == names[i];
          Err(rest.error)
        else
          assert forall i :: 1 <= i < |names| ==> names[1..][i - 1] == names[i];
          Ok(rest.value[name := ParamValue(view, config, style, name)])
  }

  /** The parameter names each style reads. */
  function ParamNames(style: Style): seq<string> {
    match style
    case Heatmap => ["point_radius", "cold_colour", "hot_colour", "intensity"]
    case Gridded => ["grid_resolution", "hot_colour", "cold_colour", "range_size"]
    case Plot => ["point_radius", "point_colour", "border_width", "border_colour"]
  }

  function StyleParams(view: Dict, config: Dict, style: Style): Result<Dict, PyError> {
    GetStyleParams(view, config, StyleName(style), ParamNames(style))
  }

  // ---------------------------------------------------------------------
  // Style selection in create_map_info

  /** The part of a style's entry in `map_styles` that `create_map_info`
      sets: `has_grid` and the tile source parameters. */
  datatype StyleInfo = StyleInfo(hasGrid: Option<bool>, params: Dict)

  /** The styles of the response and the chosen `map_style`, which is
      absent until a style sets it. */
  datatype StyleChoice = StyleChoice(styles: map<Style, StyleInfo>, mapStyle: Option<Style>)

  /** The base settings: only the heat map says it has no grid, and no
      tile source has parameters yet. */
  const BaseStyles: map<Style, StyleInfo> :=
    map[Heatmap := StyleInfo(Some(false), map[]),
        Gridded := StyleInfo(None, map[]),
        Plot := StyleInfo(None, map[])]

  /** One step of `create_map_info`, given what `get_style_params` gives
      for the style: a disabled style is deleted; an enabled one gets its
      parameters, `has_grid` from `enable_utf_grid` unless it is the heat
      map, and becomes the map style. */
  function ApplyStyle(view: Dict, choice: StyleChoice, style: Style, params: Result<Dict, PyError>)
    : (r: Result<StyleChoice, PyError>)
    requires style in choice.styles
    ensures r.Ok? <==> !Enabled(view, style) || params.Ok?
    ensures r.Err? ==> r.error == params.error
    ensures r.Ok? ==> (style in r.value.styles <==> Enabled(view, style))
    ensures r.Ok? ==> forall s :: s != style ==>
      (s in r.value.styles <==> s in choice.styles) && (s in r.value.styles ==> r.value.styles[s] == choice.styles[s])
    ensures r.Ok? && Enabled(view, style) ==>
      (&& r.value.mapStyle == Some(style)
       && r.value.styles[style].params == params.value
       && r.value.styles[style].hasGrid
          == (if style == Heatmap then choice.styles[style].hasGrid else Some(Flag(view, "enable_utf_grid"))))
    ensures r.Ok? && !Enabled(view, style) ==> r.value.mapStyle == choice.mapStyle
  {
    if !Enabled(view, style) then Ok(choice.(styles := choice.styles - {style}))
    else
      var p :- params;
      var hasGrid := if style == Heatmap then choice.styles[style].hasGrid else Some(Flag(view, "enable_utf_grid"));
      Ok(StyleChoice(choice.styles[style := StyleInfo(hasGrid, p)], Some(style)))
  }

  /** The position of a style in the order `create_map_info` handles them. */
  function Rank(style: Style): nat {
    match style
    case Heatmap => 0
    case Gridded => 1
    case Plot => 2
  }

  /** The style shown first: plot before the grid map before the heat map. */
  function Preferred(view: Dict): Option<Style> {
    if Enabled(view, Plot) then Some(Plot)
    else if Enabled(view, Gridded) then Some(Gridded)
    else if Enabled(view, Heatmap) then Some(Heatmap)
    else None
  }

  /** The style part of `create_map_info`, given what `get_style_params`
      gives for each style: heat map, grid map and plot are handled in
      turn, the first failure among the enabled ones is raised, and the
      last enabled style is the map style. */
  function SelectStyles(view: Dict, params: Style -> Result<Dict, PyError>): (r: Result<StyleChoice, PyError>)
    ensures r.Ok? <==> forall s: Style :: Enabled(view, s) ==> params(s).Ok?
    ensures r.Ok? ==> forall s: Style :: s in r.value.styles <==> Enabled(view, s)
    ensures r.Ok? ==> r.value.mapStyle == Preferred(view)
    ensures r.Ok? ==> forall s :: s in r.value.styles ==>
      r.value.styles[s] == StyleInfo(if s == Heatmap then Some(false) else Some(Flag(view, "enable_utf_grid")),
                                     params(s).value)
    ensures r.Err? ==> exists s: Style :: (Enabled(view, s) && params(s).Err?
      && (forall t: Style :: Rank(t) < Rank(s) && Enabled(view, t) ==> params(t).Ok?)
      && r.error == params(s).error)
  {
    var c1 :- ApplyStyle(view, StyleChoice(BaseStyles, None), Heatmap, params(Heatmap));
    var c2 :- ApplyStyle(view, c1, Gridded, params(Gridded));
    ApplyStyle(view, c2, Plot, params(Plot))
  }

  /** `create_map_info`'s styles for a view and configuration. */
  function CreateStyles(view: Dict, config: Dict): (r: Result<StyleChoice, PyError>)
    ensures r.Ok? <==> forall s: Style :: Enabled(view, s) ==> StyleParams(view, config, s).Ok?
    ensures r.Ok? ==> r.value.mapStyle == Preferred(view)
  {
    SelectStyles(view, s => StyleParams(view, config, s))
  }

  /** A map style is chosen exactly when the view is enabled. */
  lemma ChosenIffEnabled(view: Dict, params: Style -> Result<Dict, PyError>)
    requires SelectStyles(view, params).Ok?
    ensures SelectStyles(view, params).value.mapStyle.Some? <==> IsEnabled(view)
  {
  }

  // ---------------------------------------------------------------------
  // get_extent_info

  /** The bounds used when the extent has none: the whole map between
      latitudes 83 and -83 and longitudes -170 and 170. */
  const DefaultBounds: PyValue := Tuple([Tuple([Int(83), Int(-170)]), Tuple([Int(-83), Int(170)])])

  /** The result of `get_extent_info` from the extent the datastore
      returned: both counts are required, the bounds are optional. */
  function ExtentInfo(extent: Dict): (r: Result<(PyValue, PyValue, PyValue), PyError>)
    ensures r.Ok? <==> "total_count" in extent && "geom_count" in extent
    ensures "total_count" !in extent ==> r == Err(KeyError("total_count"))
    ensures "total_count" in extent && "geom_count" !in extent ==> r == Err(KeyError("geom_count"))
    ensures r.Ok? ==> r.value.0 == extent["total_count"] && r.value.1 == extent["geom_count"]
    ensures r.Ok? && "bounds" in extent ==> r.value.2 == extent["bounds"]
    ensures r.Ok? && "bounds" !in extent ==> r.value.2 == DefaultBounds
  {
    if "total_count" !in extent then Err(KeyError("total_count"))
    else if "geom_count" !in extent then Err(KeyError("geom_count"))
    else Ok((extent["total_count"], extent["geom_count"],
             if "bounds" in extent then extent["bounds"] else DefaultBounds))
  }

  /** The extent info reads only the two counts and the bounds: adding or
      removing any other entry of the datastore's extent changes nothing. */
  lemma ExtentKeys(extent: Dict, k: string, v: PyValue)
    requires k != "total_count" && k != "geom_count" && k != "bounds"
    ensures ExtentInfo(extent[k := v]) == ExtentInfo(extent)
    ensures ExtentInfo(extent - {k}) == ExtentInfo(extent)
  {
  }
}
