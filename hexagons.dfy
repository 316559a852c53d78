/**
  * H3 tiling of a search boundary: the resolution table with its search
  * radii, the choice between the two tilings of a boundary, and the loading
  * of boundaries from a GeoJSON FeatureCollection (section 3.3 of RFC 7946;
  * a Feature's members are those of section 3.2).
  *
  * The two tilings and the coverage measurement are geometry computations
  * over foreign libraries; they are given as functions of a `Tiler`.
  */
module Hexagons {
  import opened Wrappers
  import opened Json

  /** One row of `H3_RESOLUTIONS`. */
  datatype ResolutionInfo = ResolutionInfo(name: string, avgEdgeLengthKm: real, searchRadius: int)

  const H3Resolutions: map<int, ResolutionInfo> := map[
    5 := ResolutionInfo("Vast (Res 5)", 9.854090990, 9855),
    6 := ResolutionInfo("Large (Res 6)", 3.724532667, 3725),
    7 := ResolutionInfo("Medium (Res 7)", 1.406475763, 1407),
    8 := ResolutionInfo("Small (Res 8)", 0.531414010, 532),
    9 := ResolutionInfo("Very Small (Res 9)", 0.200786148, 201),
    10 := ResolutionInfo("Tiny (Res 10)", 0.075863783, 76),
    11 := ResolutionInfo("Micro (Res 11)", 0.028663897, 29)]

  const DefaultH3Resolution: int := 7
  const MaxH3Resolution: int := 11

  /** The radius, in meters, used for a resolution the table does not list. */
  const DefaultSearchRadius: int := 1000

  /** `get_search_radius_for_resolution`: the table's radius, or 1000 m for an unlisted resolution. */
  function SearchRadius(resolution: int): (r: int)
    ensures resolution in H3Resolutions ==> r == H3Resolutions[resolution].searchRadius
    ensures resolution !in H3Resolutions ==> r == DefaultSearchRadius
  {
    if resolution in H3Resolutions then H3Resolutions[resolution].searchRadius else DefaultSearchRadius
  }

  /** The table lists exactly the resolutions 5 to 11, the default and the maximum among them. */
  lemma TableListsFiveToEleven(res: int)
    ensures res in H3Resolutions <==> 5 <= res <= MaxH3Resolution
    ensures DefaultH3Resolution in H3Resolutions
  {
  }

  /** Every listed radius is the cell's average edge length in meters, rounded up. */
  lemma RadiusIsEdgeRoundedUp(res: int)
    requires res in H3Resolutions
    ensures var info := H3Resolutions[res];
      (info.searchRadius - 1) as real < info.avgEdgeLengthKm * 1000.0 <= info.searchRadius as real
  {
  }

  /** A finer resolution always searches a strictly smaller radius. */
  lemma RadiusShrinksWithResolution(res: int)
    requires 5 <= res < MaxH3Resolution
    ensures 0 < SearchRadius(res + 1) < SearchRadius(res)
  {
  }

  /** A coverage ratio: covered area over boundary area, never negative. */
  type Ratio = x: real | 0.0 <= x witness 0.0

  datatype Tiler = Tiler(
    enhanced: (Value, int) -> seq<string>,     // generate_hexagons_from_geojson_enhanced
    honeycomb: (Value, int) -> seq<string>,    // generate_hexagons_honeycomb_pattern
    measure: (Value, seq<string>) -> Ratio)    // the area computation of validate_hexagon_coverage

  /** `validate_hexagon_coverage(...)["coverage_ratio"]`: 0 for no hexagons. */
  function CoverageRatio(geometry: Value, hexes: seq<string>, t: Tiler): (r: real)
    ensures r >= 0.0
    ensures hexes == [] ==> r == 0.0
  {
    if hexes == [] then 0.0 else t.measure(geometry, hexes)
  }

  /** The minimum coverage below which the honeycomb tiling is tried. */
  const CoverageGoal: real := 0.95

  /** When the honeycomb tiling replaces the primary one. */
  predicate HoneycombPreferred(geometry: Value, res: int, t: Tiler)
  {
    var primary := t.enhanced(geometry, res);
    && CoverageRatio(geometry, primary, t) < CoverageGoal
    && |primary| > 0
    && CoverageRatio(geometry, t.honeycomb(geometry, res), t) > CoverageRatio(geometry, primary, t)
  }

  /**
    * `generate_hexagons_from_geojson`: the primary tiling, unless it is
    * non-empty and covers less than 95% of the boundary and the honeycomb
    * tiling covers strictly more.
    */
  function GenerateHexagons(geometry: Value, res: int, t: Tiler): (r: seq<string>)
    ensures r == t.enhanced(geometry, res) || r == t.honeycomb(geometry, res)
  {
    var primary := t.enhanced(geometry, res);
    if CoverageRatio(geometry, primary, t) < CoverageGoal && |primary| > 0 then
      var honeycomb := t.honeycomb(geometry, res);
      if CoverageRatio(geometry, honeycomb, t) > CoverageRatio(geometry, primary, t) then honeycomb
      else primary
    else primary
  }

  /**
    * The selection rule in both directions: the honeycomb tiling is taken
    * exactly when all three conditions hold, and otherwise the primary
    * tiling comes back unchanged.
    */
  lemma SelectionRule(geometry: Value, res: int, t: Tiler)
    ensures HoneycombPreferred(geometry, res, t) ==> GenerateHexagons(geometry, res, t) == t.honeycomb(geometry, res)
    ensures !HoneycombPreferred(geometry, res, t) ==> GenerateHexagons(geometry, res, t) == t.enhanced(geometry, res)
  {
  }

  /**
    * The chosen tiling covers at least as much as the primary one, and it
    * is empty exactly when the primary one is.
    */
  lemma SelectionNeverWorse(geometry: Value, res: int, t: Tiler)
    ensures CoverageRatio(geometry, GenerateHexagons(geometry, res, t), t) >= CoverageRatio(geometry, t.enhanced(geometry, res), t)
    ensures GenerateHexagons(geometry, res, t) == [] <==> t.enhanced(geometry, res) == []
  {
    SelectionRule(geometry, res, t);
    if HoneycombPreferred(geometry, res, t) {
      assert t.honeycomb(geometry, res) != [];
    }
  }

  // ---------------------------------------------------------------------
  // Boundaries from GeoJSON

  /** A search boundary: its name and its GeoJSON geometry. */
  datatype Boundary = Boundary(name: Value, geometry: Value)

  /** The properties tried, in order, for a boundary's name. */
  const NameKeys: seq<string> := ["DISTRICT", "name", "NAME", "district", "region", "area"]

  const UnnamedBoundary: Value := Str("Unnamed Boundary")

  /** `props.get(k1) or props.get(k2) or ... or default`. */
  function FirstTruthy(props: seq<(string, Value)>, keys: seq<string>, default: Value): (r: Value)
    ensures Truthy(default) ==> Truthy(r)
  {
    if keys == [] then default
    else
      var v := GetOr(props, keys[0], Null);
      if Truthy(v) then v else FirstTruthy(props, keys[1..], default)
  }

  /** The first key with a truthy value names the boundary. */
  lemma {:induction false} FirstTruthyPicksFirst(props: seq<(string, Value)>, keys: seq<string>, default: Value, k: nat)
    requires k < |keys| && Truthy(GetOr(props, keys[k], Null))
    requires forall j :: 0 <= j < k ==> !Truthy(GetOr(props, keys[j], Null))
    ensures FirstTruthy(props, keys, default) == GetOr(props, keys[k], Null)
  {
    if k > 0 {
      FirstTruthyPicksFirst(props, keys[1..], default, k - 1);
    }
  }

  /** With no truthy candidate the default names the boundary. */
  lemma {:induction false} FirstTruthyFallsBack(props: seq<(string, Value)>, keys: seq<string>, default: Value)
    requires forall j :: 0 <= j < |keys| ==> !Truthy(GetOr(props, keys[j], Null))
    ensures FirstTruthy(props, keys, default) == default
  {
    if keys != [] {
      FirstTruthyFallsBack(props, keys[1..], default);
    }
  }

  /** What one feature contributes: nothing, a boundary, or an error (`AttributeError` in the source). */
  datatype FeatureOutcome = Skipped | Loaded(boundary: Boundary) | Malformed

  /**
    * A feature with truthy `properties` and `geometry` becomes a boundary
    * named by the first truthy name property; other features are skipped.
    * A feature that is not an object, or whose truthy properties are not an
    * object, makes the loading fail.
    */
  function FeatureOf(feature: Value): (r: FeatureOutcome)
    ensures r.Loaded? ==> Truthy(r.boundary.name) && Truthy(r.boundary.geometry)
    ensures r.Loaded? ==> feature.Object? && r.boundary.geometry == GetOr(feature.fields, "geometry", Object([]))
    ensures r.Skipped? <==>
      feature.Object? && !(Truthy(GetOr(feature.fields, "properties", Object([]))) && Truthy(GetOr(feature.fields, "geometry", Object([]))))
  {
    match feature
    case Object(fields) =>
      var props := GetOr(fields, "properties", Object([]));
      var geom := GetOr(fields, "geometry", Object([]));
      if !(Truthy(props) && Truthy(geom)) then Skipped
      else if props.Object? then Loaded(Boundary(FirstTruthy(props.fields, NameKeys, UnnamedBoundary), geom))
      else Malformed
    case _ => Malformed
  }

  /**
    * The features iterated: the `features` member, `[]` when absent. An
    * empty string or object iterates as nothing; any other non-list value
    * (or a top level that is not an object) makes the loading fail.
    */
  function FeatureList(data: Value): (r: Option<seq<Value>>)
    ensures data.Object? && Lookup(data.fields, "features").None? ==> r == Some([])
    ensures r.Some? && r.value != [] ==> data.Object? && Lookup(data.fields, "features") == Some(List(r.value))
  {
    match data
    case Object(fields) =>
      (match Lookup(fields, "features")
       case None => Some([])
       case Some(List(items)) => Some(items)
       case Some(Str(s)) => if s == "" then Some([]) else None
       case Some(Object(f)) => if f == [] then Some([]) else None
       case Some(_) => None)
    case _ => None
  }

  /** The boundaries of a run of feature outcomes, in order, or `None` once one is malformed. */
  function Gather(outs: seq<FeatureOutcome>): Option<seq<Boundary>>
  {
    if outs == [] then Some([])
    else match Gather(outs[..|outs| - 1])
      case None => None
      case Some(bs) =>
        match outs[|outs| - 1]
        case Skipped => Some(bs)
        case Loaded(b) => Some(bs + [b])
        case Malformed => None
  }

  /** Once a feature is malformed, later ones cannot bring the result back. */
  lemma {:induction false} GatherFailureSticks(outs: seq<FeatureOutcome>, n: nat)
    requires n <= |outs|
    requires Gather(outs[..n]).None?
    ensures Gather(outs).None?
    decreases |outs| - n
  {
    if n < |outs| {
      assert outs[..n + 1][..n] == outs[..n];
      GatherFailureSticks(outs, n + 1);
    } else {
      assert outs[..n] == outs;
    }
  }

  /** Gathering fails exactly when some outcome is malformed. */
  lemma {:induction false} GatherFailsExactly(outs: seq<FeatureOutcome>)
    ensures Gather(outs).None? <==> Malformed in outs
  {
    if outs != [] {
      var init := outs[..|outs| - 1];
      GatherFailsExactly(init);
      assert outs == init + [outs[|outs| - 1]];
    }
  }

  /** A successful gathering holds exactly the loaded boundaries, at most one per outcome. */
  lemma {:induction false} GatherExactly(outs: seq<FeatureOutcome>, b: Boundary)
    requires Gather(outs).Some?
    ensures |Gather(outs).value| <= |outs|
    ensures b in Gather(outs).value <==> Loaded(b) in outs
  {
    if outs != [] {
      var init := outs[..|outs| - 1];
      GatherExactly(init, b);
      assert outs == init + [outs[|outs| - 1]];
    }
  }

  /** What each feature contributes, in order. */
  function FeatureOutcomes(features: seq<Value>): (r: seq<FeatureOutcome>)
    ensures |r| == |features|
    ensures forall i :: 0 <= i < |features| ==> r[i] == FeatureOf(features[i])
  {
    seq(|features|, i requires 0 <= i < |features| => FeatureOf(features[i]))
  }

  /** The boundaries of a run of features, in order, or `None` once one is malformed. */
  function Boundaries(features: seq<Value>): Option<seq<Boundary>>
  {
    Gather(FeatureOutcomes(features))
  }

  /** Loading fails exactly when some feature is malformed. */
  lemma BoundariesFailExactly(features: seq<Value>)
    ensures Boundaries(features).None? <==> exists i :: 0 <= i < |features| && FeatureOf(features[i]).Malformed?
  {
    var outs := FeatureOutcomes(features);
    GatherFailsExactly(outs);
    if Malformed in outs {
      var i :| 0 <= i < |outs| && outs[i] == Malformed;
      assert FeatureOf(features[i]).Malformed?;
    }
    if exists i :: 0 <= i < |features| && FeatureOf(features[i]).Malformed? {
      var i :| 0 <= i < |features| && FeatureOf(features[i]).Malformed?;
      assert outs[i] == Malformed;
    }
  }

  /**
    * When loading succeeds, the boundaries are exactly those of the loaded
    * features, at most one per feature; each has a truthy name and geometry.
    */
  lemma BoundariesExactly(features: seq<Value>, b: Boundary)
    requires Boundaries(features).Some?
    ensures |Boundaries(features).value| <= |features|
    ensures b in Boundaries(features).value <==> exists i :: 0 <= i < |features| && FeatureOf(features[i]) == Loaded(b)
    ensures b in Boundaries(features).value ==> Truthy(b.name) && Truthy(b.geometry)
  {
    var outs := FeatureOutcomes(features);
    GatherExactly(outs, b);
    if Loaded(b) in outs {
      var i :| 0 <= i < |outs| && outs[i] == Loaded(b);
      assert FeatureOf(features[i]) == Loaded(b);
    }
    if exists i :: 0 <= i < |features| && FeatureOf(features[i]) == Loaded(b) {
      var i :| 0 <= i < |features| && FeatureOf(features[i]) == Loaded(b);
      assert outs[i] == Loaded(b);
    }
  }

  /** `load_boundaries_from_geojson_data`; `None` when the source raises. */
  method LoadBoundaries(data: Value) returns (r: Option<seq<Boundary>>)
    ensures FeatureList(data).None? ==> r.None?
    ensures FeatureList(data).Some? ==> r == Boundaries(FeatureList(data).value)
  {
    var features := FeatureList(data);
    if features.None? {
      return None;
    }
    var fs := features.value;
    ghost var outs := FeatureOutcomes(fs);
    var boundaries: seq<Boundary> := [];
    for i := 0 to |fs|
      invariant Gather(outs[..i]) == Some(boundaries)
    {
      assert outs[..i + 1][..i] == outs[..i];
      var outcome := FeatureOf(fs[i]);
      match outcome
      case Skipped =>
      case Loaded(b) =>
        boundaries := boundaries + [b];
      case Malformed =>
        GatherFailureSticks(outs, i + 1);
        return None;
    }
    assert outs[..|fs|] == outs;
    r := Some(boundaries);
  }
}
