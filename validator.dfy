/** Warn-only structural validation of scene.3d.v1 documents
    (src/runtime/validateScene3D.js). Every check appends `{path, message}`
    records to one shared error list; nothing is rejected. The list is an
    `ErrorLog` object whose `errors` field the validators extend, and each
    validator is proved to append exactly the errors a pure function of its
    input prescribes. The properties of the validation are lemmas about those
    functions. */
module Validator {
  import opened Scene

  /** A parsed JSON value. Objects are maps: no check here depends on the
      order of an object's keys. */
  datatype Json =
    | JNull
    | JBool(b: bool)
    | JNum(n: real)
    | JStr(s: string)
    | JArr(items: seq<Json>)
    | JObj(fields: map<string, Json>)

  datatype ValidationError = ValidationError(path: string, message: Message)

  // ---------------------------------------------------------------------------
  // JavaScript semantics the validator relies on

  /** `typeof v === 'object'`: true for objects, arrays and null. */
  predicate IsObjectType(v: Json) {
    v.JNull? || v.JArr? || v.JObj?
  }

  /** `prop in v` for a non-null value of object type: only an object's own
      keys qualify (no property name checked here is an array key). */
  predicate HasProp(v: Json, prop: string) {
    v.JObj? && prop in v.fields
  }

  /** `v[prop]`, with None standing for `undefined`. */
  function Get(v: Json, prop: string): Option<Json> {
    if HasProp(v, prop) then Some(v.fields[prop]) else None
  }

  /** JavaScript truthiness of a possibly undefined value. */
  predicate JsonTruthy(v: Option<Json>) {
    match v
    case None => false
    case Some(j) =>
      match j
      case JNull => false
      case JBool(b) => b
      case JNum(n) => n != 0.0
      case JStr(s) => s != ""
      case _ => true
  }

  /** `Number.isInteger(v)`. */
  predicate IsInteger(v: Json) {
    v.JNum? && v.n == v.n.Floor as real
  }

  function DigitChar(d: int): char
    requires 0 <= d < 10
  {
    "0123456789"[d]
  }

  /** Decimal text of a natural number, as a template literal prints it. */
  function NatToString(n: nat): string {
    if n < 10 then [DigitChar(n)] else NatToString(n / 10) + [DigitChar(n % 10)]
  }

  /** `${path}.${prop}` */
  function Child(path: string, prop: string): string {
    path + "." + prop
  }

  /** `${path}[${index}]` */
  function Index(path: string, index: nat): string {
    path + "[" + NatToString(index) + "]"
  }

  // ---------------------------------------------------------------------------
  // Messages

  /** The kinds of message the validator produces; `Text` gives each one's
      wording. */
  datatype Message =
    | RootNotObject
    | NotObject
    | MissingProperty
    | MissingTopLevel(prop: string)
    | WrongSchema
    | WrongVersion
    | BadName
    | NotNumber
    | BelowMin(range: NumericRange)
    | AboveMax(range: NumericRange)
    | WrongLengthUnit
    | WrongCoordinateSystem
    | NotArray
    | NotPair
    | NotInteger
    | OutsideGrid

  function Text(m: Message): string {
    match m
    case RootNotObject => "Root must be an object"
    case NotObject => "Must be an object"
    case MissingProperty => "Missing required property"
    case MissingTopLevel(prop) => "Missing required property '" + prop + "'"
    case WrongSchema => "Must be \"scene.3d.v1\""
    case WrongVersion => "Must match pattern \"1.x\""
    case BadName => "Must be string with 1-100 characters"
    case NotNumber => "Must be a number"
    case BelowMin(r) => "Must be " + (if r.exclusive then ">" else ">=") + " " + r.minText
    case AboveMax(r) => "Must be <= " + r.maxText
    case WrongLengthUnit => "Must be \"meters\" or \"metres\""
    case WrongCoordinateSystem => "Must be \"right-handed-y-up\""
    case NotArray => "Must be an array"
    case NotPair => "Must have exactly 2 elements"
    case NotInteger => "Must be an integer"
    case OutsideGrid => "Must be between 0 and 1000"
  }

  /** Errors raised below the root: never the root error and never a missing
      top-level property. */
  predicate Catalogued(errs: seq<ValidationError>) {
    forall e :: e in errs ==> !e.message.RootNotObject? && !e.message.MissingTopLevel?
  }

  // ---------------------------------------------------------------------------
  // validateGridCoordinate

  /** One coordinate of a grid pair: an integer in [0, 1000]. */
  function ElementErrors(v: Json, path: string): (errs: seq<ValidationError>)
    ensures Catalogued(errs) && |errs| <= 1
  {
    if !IsInteger(v) then [ValidationError(path, NotInteger)]
    else if v.n < 0.0 || v.n > 1000.0 then [ValidationError(path, OutsideGrid)]
    else []
  }

  /** The errors of the first `n` elements of a coordinate pair. */
  function ElementsErrors(items: seq<Json>, path: string, n: nat): (errs: seq<ValidationError>)
    requires n <= |items|
    ensures Catalogued(errs) && |errs| <= n
  {
    if n == 0 then []
    else ElementsErrors(items, path, n - 1) + ElementErrors(items[n - 1], Index(path, n - 1))
  }

  /** A grid coordinate must be an array of exactly two integers in [0, 1000]. */
  function GridCoordinateErrors(coord: Json, path: string): (errs: seq<ValidationError>)
    ensures Catalogued(errs)
  {
    if !coord.JArr? then [ValidationError(path, NotArray)]
    else if |coord.items| != 2 then [ValidationError(path, NotPair)]
    else ElementsErrors(coord.items, path, 2)
  }

  /** A coordinate the validator accepts. */
  predicate GridValue(v: Json) {
    IsInteger(v) && 0.0 <= v.n <= 1000.0
  }

  /** A coordinate yields at most two errors (one per element), exactly one
      when it is not a pair, and none exactly when it is a pair of integers
      in [0, 1000]. */
  lemma GridCoordinateErrorCount(coord: Json, path: string)
    ensures |GridCoordinateErrors(coord, path)| <= 2
    ensures !(coord.JArr? && |coord.items| == 2) ==> |GridCoordinateErrors(coord, path)| == 1
    ensures GridCoordinateErrors(coord, path) == [] <==>
              coord.JArr? && |coord.items| == 2 && GridValue(coord.items[0]) && GridValue(coord.items[1])
  {
    if coord.JArr? && |coord.items| == 2 {
      var items := coord.items;
      assert ElementsErrors(items, path, 2)
          == ElementErrors(items[0], Index(path, 0)) + ElementErrors(items[1], Index(path, 1));
    }
  }

  /** The errors of the first `n` coordinates of a list. */
  function CoordinatesErrors(items: seq<Json>, path: string, n: nat): (errs: seq<ValidationError>)
    requires n <= |items|
    ensures Catalogued(errs)
  {
    if n == 0 then []
    else CoordinatesErrors(items, path, n - 1) + GridCoordinateErrors(items[n - 1], Index(path, n - 1))
  }

  /** The `i`-th coordinate of a list raises no error. */
  predicate CoordinateClean(items: seq<Json>, path: string, i: nat)
    requires i < |items|
  {
    GridCoordinateErrors(items[i], Index(path, i)) == []
  }

  /** A list of coordinates is clean exactly when each of its coordinates is. */
  lemma {:induction false} CoordinatesClean(items: seq<Json>, path: string, n: nat)
    requires n <= |items|
    ensures CoordinatesErrors(items, path, n) == [] <==>
              forall i :: 0 <= i < n ==> CoordinateClean(items, path, i)
  {
    if n > 0 {
      CoordinatesClean(items, path, n - 1);
      var init := CoordinatesErrors(items, path, n - 1);
      var last := GridCoordinateErrors(items[n - 1], Index(path, n - 1));
      assert CoordinatesErrors(items, path, n) == init + last;
      if init + last == [] {
        assert init == [] && last == [] by { assert |init + last| == |init| + |last|; }
        forall i | 0 <= i < n
          ensures CoordinateClean(items, path, i)
        {
          if i == n - 1 {
            assert last == GridCoordinateErrors(items[i], Index(path, i));
          }
        }
      }
      if forall i :: 0 <= i < n ==> CoordinateClean(items, path, i) {
        assert CoordinateClean(items, path, n - 1);
        assert forall i :: 0 <= i < n - 1 ==> CoordinateClean(items, path, i);
      }
    }
  }

  // ---------------------------------------------------------------------------
  // validateTiles / validateEdges

  /** A property that must hold an array of grid coordinates. */
  function CoordinateListErrors(v: Json, prop: string, path: string): (errs: seq<ValidationError>)
    ensures Catalogued(errs)
  {
    if !HasProp(v, prop) then [ValidationError(Child(path, prop), MissingProperty)]
    else if !v.fields[prop].JArr? then [ValidationError(Child(path, prop), NotArray)]
    else
      var items := v.fields[prop].items;
      CoordinatesErrors(items, Child(path, prop), |items|)
  }

  /** `tiles` must be an object whose `floor` is an array of coordinates. */
  function TilesErrors(tiles: Json, path: string): (errs: seq<ValidationError>)
    requires tiles != JNull
    ensures Catalogued(errs)
  {
    if !IsObjectType(tiles) then [ValidationError(path, NotObject)]
    else CoordinateListErrors(tiles, "floor", path)
  }

  const EdgeProps := ["horizontal", "vertical"]

  /** The errors of the first `n` edge lists. */
  function EdgeListsErrors(edges: Json, path: string, n: nat): (errs: seq<ValidationError>)
    requires n <= |EdgeProps|
    ensures Catalogued(errs)
  {
    if n == 0 then []
    else EdgeListsErrors(edges, path, n - 1) + CoordinateListErrors(edges, EdgeProps[n - 1], path)
  }

  /** `edges` must be an object whose `horizontal` and `vertical` are arrays
      of coordinates. */
  function EdgesErrors(edges: Json, path: string): (errs: seq<ValidationError>)
    requires edges != JNull
    ensures Catalogued(errs)
  {
    if !IsObjectType(edges) then [ValidationError(path, NotObject)]
    else EdgeListsErrors(edges, path, |EdgeProps|)
  }

  /** The tile list is clean exactly when `floor` is an array of valid
      coordinates. */
  lemma TilesClean(tiles: Json, path: string)
    requires tiles != JNull
    ensures TilesErrors(tiles, path) == [] <==>
              && HasProp(tiles, "floor") && tiles.fields["floor"].JArr?
              && var items := tiles.fields["floor"].items;
                 forall i :: 0 <= i < |items| ==> CoordinateClean(items, Child(path, "floor"), i)
  {
    if HasProp(tiles, "floor") && tiles.fields["floor"].JArr? {
      var items := tiles.fields["floor"].items;
      CoordinatesClean(items, Child(path, "floor"), |items|);
    }
  }

  /** A property holding an array of grid coordinates, each of them clean. */
  predicate CoordinateListClean(v: Json, prop: string, path: string) {
    && HasProp(v, prop) && v.fields[prop].JArr?
    && var items := v.fields[prop].items;
       forall i :: 0 <= i < |items| ==> CoordinateClean(items, Child(path, prop), i)
  }

  /** A coordinate list property raises no error exactly when it is an array
      of valid coordinates. */
  lemma CoordinateListNoErrors(v: Json, prop: string, path: string)
    ensures CoordinateListErrors(v, prop, path) == [] <==> CoordinateListClean(v, prop, path)
  {
    if HasProp(v, prop) && v.fields[prop].JArr? {
      var items := v.fields[prop].items;
      CoordinatesClean(items, Child(path, prop), |items|);
    }
  }

  /** The edges are clean exactly when they form an object whose `horizontal`
      and `vertical` are both arrays of valid coordinates. */
  lemma EdgesClean(edges: Json, path: string)
    requires edges != JNull
    ensures EdgesErrors(edges, path) == [] <==>
              && edges.JObj?
              && CoordinateListClean(edges, "horizontal", path)
              && CoordinateListClean(edges, "vertical", path)
  {
    if IsObjectType(edges) {
      assert EdgeProps[0] == "horizontal" && EdgeProps[1] == "vertical";
      CoordinateListNoErrors(edges, "horizontal", path);
      CoordinateListNoErrors(edges, "vertical", path);
      assert EdgeListsErrors(edges, path, 2)
          == EdgeListsErrors(edges, path, 1) + CoordinateListErrors(edges, "vertical", path);
      assert EdgeListsErrors(edges, path, 1) == CoordinateListErrors(edges, "horizontal", path);
    }
  }

  // ---------------------------------------------------------------------------
  // validatePoint3D, validateBounds, validateOriginOffset

  /** A property that must be present and numeric. */
  function NumberPropErrors(v: Json, prop: string, path: string): (errs: seq<ValidationError>)
    ensures Catalogued(errs) && |errs| <= 1
  {
    if !HasProp(v, prop) then [ValidationError(Child(path, prop), MissingProperty)]
    else if !v.fields[prop].JNum? then [ValidationError(Child(path, prop), NotNumber)]
    else []
  }

  /** The errors of the first `n` of `props`, each required to be numeric. */
  function NumberPropsErrors(v: Json, props: seq<string>, path: string, n: nat): (errs: seq<ValidationError>)
    requires n <= |props|
    ensures Catalogued(errs) && |errs| <= n
  {
    if n == 0 then []
    else NumberPropsErrors(v, props, path, n - 1) + NumberPropErrors(v, props[n - 1], path)
  }

  /** The first `n` of `props` are all present and numeric exactly when none
      of them reports an error. */
  lemma {:induction false} NumberPropsClean(v: Json, props: seq<string>, path: string, n: nat)
    requires n <= |props|
    ensures NumberPropsErrors(v, props, path, n) == [] <==>
              forall i :: 0 <= i < n ==> HasProp(v, props[i]) && v.fields[props[i]].JNum?
  {
    if n > 0 {
      NumberPropsClean(v, props, path, n - 1);
    }
  }

  const PointProps := ["x", "y", "z"]

  /** The result of running a validator that may throw. */
  datatype Outcome = Completed(errors: seq<ValidationError>) | ThrewTypeError

  /** validatePoint3D as written: `typeof null` is `'object'`, so a null point
      passes the type check and the following `'x' in point` throws. */
  function Point3DAsWritten(point: Json, path: string): (o: Outcome)
    ensures o.Completed? <==> point != JNull
  {
    if !IsObjectType(point) then Completed([ValidationError(path, NotObject)])
    else if point.JNull? then ThrewTypeError
    else Completed(NumberPropsErrors(point, PointProps, path, |PointProps|))
  }

  /** validatePoint3D with null treated as the non-object it is: the point
      must be an object with numeric x, y and z. */
  function Point3DErrors(point: Json, path: string): (errs: seq<ValidationError>)
    ensures Catalogued(errs)
  {
    if !IsObjectType(point) || point.JNull? then [ValidationError(path, NotObject)]
    else NumberPropsErrors(point, PointProps, path, |PointProps|)
  }

  /** The as-written point check throws on null where every other check only
      records; everywhere else it agrees with the corrected one. */
  lemma NullPointThrows(point: Json, path: string)
    ensures point == JNull ==> Point3DAsWritten(point, path).ThrewTypeError?
    ensures point == JNull ==> Point3DErrors(point, path) == [ValidationError(path, NotObject)]
    ensures point != JNull ==> Point3DAsWritten(point, path) == Completed(Point3DErrors(point, path))
  {
  }

  /** A point is clean exactly when it is an object with numeric x, y and z. */
  lemma Point3DClean(point: Json, path: string)
    ensures Point3DErrors(point, path) == [] <==>
              && point.JObj?
              && HasProp(point, "x") && point.fields["x"].JNum?
              && HasProp(point, "y") && point.fields["y"].JNum?
              && HasProp(point, "z") && point.fields["z"].JNum?
  {
    NumberPropsClean(point, PointProps, path, |PointProps|);
    if point.JObj? && NumberPropsErrors(point, PointProps, path, |PointProps|) == [] {
      assert PointProps[0] == "x" && PointProps[1] == "y" && PointProps[2] == "z";
    }
  }

  const BoundsProps := ["min", "max", "center"]

  /** A bounds corner: missing, or checked as a point. */
  function BoundsPropErrors(bounds: Json, prop: string, path: string): (errs: seq<ValidationError>)
    ensures Catalogued(errs)
  {
    if !HasProp(bounds, prop) then [ValidationError(Child(path, prop), MissingProperty)]
    else Point3DErrors(bounds.fields[prop], Child(path, prop))
  }

  function BoundsPropsErrors(bounds: Json, path: string, n: nat): (errs: seq<ValidationError>)
    requires n <= |BoundsProps|
    ensures Catalogued(errs)
  {
    if n == 0 then []
    else BoundsPropsErrors(bounds, path, n - 1) + BoundsPropErrors(bounds, BoundsProps[n - 1], path)
  }

  /** `bounds` must be an object with point-valued min, max and center. */
  function BoundsErrors(bounds: Json, path: string): (errs: seq<ValidationError>)
    requires bounds != JNull
    ensures Catalogued(errs)
  {
    if !IsObjectType(bounds) then [ValidationError(path, NotObject)]
    else BoundsPropsErrors(bounds, path, |BoundsProps|)
  }

  /** A value the point check accepts: an object with numeric x, y and z. */
  predicate NumericPoint(point: Json) {
    && point.JObj?
    && HasProp(point, "x") && point.fields["x"].JNum?
    && HasProp(point, "y") && point.fields["y"].JNum?
    && HasProp(point, "z") && point.fields["z"].JNum?
  }

  /** A bounds corner raises no error exactly when it is present and a point. */
  lemma BoundsPropClean(bounds: Json, prop: string, path: string)
    ensures BoundsPropErrors(bounds, prop, path) == [] <==> HasProp(bounds, prop) && NumericPoint(bounds.fields[prop])
  {
    if HasProp(bounds, prop) {
      Point3DClean(bounds.fields[prop], Child(path, prop));
    }
  }

  /** The bounds are clean exactly when they form an object whose `min`,
      `max` and `center` are all points with numeric coordinates. */
  lemma BoundsClean(bounds: Json, path: string)
    requires bounds != JNull
    ensures BoundsErrors(bounds, path) == [] <==>
              && bounds.JObj?
              && HasProp(bounds, "min") && NumericPoint(bounds.fields["min"])
              && HasProp(bounds, "max") && NumericPoint(bounds.fields["max"])
              && HasProp(bounds, "center") && NumericPoint(bounds.fields["center"])
  {
    if IsObjectType(bounds) {
      assert BoundsProps[0] == "min" && BoundsProps[1] == "max" && BoundsProps[2] == "center";
      BoundsPropClean(bounds, "min", path);
      BoundsPropClean(bounds, "max", path);
      BoundsPropClean(bounds, "center", path);
      assert BoundsPropsErrors(bounds, path, 1) == BoundsPropErrors(bounds, "min", path);
      assert BoundsPropsErrors(bounds, path, 2)
          == BoundsPropsErrors(bounds, path, 1) + BoundsPropErrors(bounds, "max", path);
      assert BoundsPropsErrors(bounds, path, 3)
          == BoundsPropsErrors(bounds, path, 2) + BoundsPropErrors(bounds, "center", path);
    }
  }

  const OffsetProps := ["x", "z"]

  /** `originOffset` must be an object with numeric x and z; y is not checked. */
  function OriginOffsetErrors(offset: Json, path: string): (errs: seq<ValidationError>)
    requires offset != JNull
    ensures Catalogued(errs) && |errs| <= 2
  {
    if !IsObjectType(offset) then [ValidationError(path, NotObject)]
    else NumberPropsErrors(offset, OffsetProps, path, |OffsetProps|)
  }

  /** The origin offset is clean exactly when it is an object with numeric x
      and z, and its y (which the loader reads) plays no part. */
  lemma OriginOffsetClean(fields: map<string, Json>, path: string)
    ensures OriginOffsetErrors(JObj(fields), path) == [] <==>
              && "x" in fields && fields["x"].JNum?
              && "z" in fields && fields["z"].JNum?
    ensures OriginOffsetErrors(JObj(fields), path) == OriginOffsetErrors(JObj(fields - {"y"}), path)
  {
    var v := JObj(fields);
    NumberPropsClean(v, OffsetProps, path, |OffsetProps|);
    if NumberPropsErrors(v, OffsetProps, path, |OffsetProps|) == [] {
      assert OffsetProps[0] == "x" && OffsetProps[1] == "z";
    }
    var w := JObj(fields - {"y"});
    assert NumberPropErrors(v, "x", path) == NumberPropErrors(w, "x", path);
    assert NumberPropErrors(v, "z", path) == NumberPropErrors(w, "z", path);
    assert NumberPropsErrors(v, OffsetProps, path, 1) == NumberPropsErrors(w, OffsetProps, path, 1);
  }

  // ---------------------------------------------------------------------------
  // validateUnits

  /** A numeric unit and its admissible range. The bounds' texts are the
      numbers as the messages print them. */
  datatype NumericRange = NumericRange(prop: string, min: real, minText: string,
                                       max: real, maxText: string, exclusive: bool)

  /** The four required units, in the order the validator visits them. */
  const NumericProps := [
    NumericRange("cellMeters", 0.0, "0", 10.0, "10", true),
    NumericRange("wallHeightMeters", 0.1, "0.1", 20.0, "20", false),
    NumericRange("wallThicknessMeters", 0.01, "0.01", 2.0, "2", false),
    NumericRange("floorThicknessMeters", 0.01, "0.01", 1.0, "1", false)
  ]

  /** A value inside the range: above the minimum (strictly when exclusive)
      and at most the maximum. */
  predicate InRange(v: real, r: NumericRange) {
    (if r.exclusive then v > r.min else v >= r.min) && v <= r.max
  }

  /** One required unit: missing, not a number, below its minimum or above
      its maximum. */
  function UnitErrors(units: Json, r: NumericRange, path: string): (errs: seq<ValidationError>)
    requires r in NumericProps
    ensures Catalogued(errs)
  {
    var p := Child(path, r.prop);
    if !HasProp(units, r.prop) then [ValidationError(p, MissingProperty)]
    else if !units.fields[r.prop].JNum? then [ValidationError(p, NotNumber)]
    else
      var v := units.fields[r.prop].n;
      var minCheck := if r.exclusive then v <= r.min else v < r.min;
      (if minCheck then [ValidationError(p, BelowMin(r))] else [])
      + (if v > r.max then [ValidationError(p, AboveMax(r))] else [])
  }

  /** Each required unit yields at most one error, and none exactly when it
      is a number within its range. */
  lemma UnitAtMostOneError(units: Json, r: NumericRange, path: string)
    requires r in NumericProps
    ensures |UnitErrors(units, r, path)| <= 1
    ensures UnitErrors(units, r, path) == [] <==>
              HasProp(units, r.prop) && units.fields[r.prop].JNum? && InRange(units.fields[r.prop].n, r)
  {
    assert r.min < r.max;
  }

  /** A zero cell size, which the loader refuses, is flagged by the validator. */
  lemma ZeroCellMetersFlagged(units: map<string, Json>, path: string)
    requires "cellMeters" in units && units["cellMeters"] == JNum(0.0)
    ensures UnitErrors(JObj(units), NumericProps[0], path)
         == [ValidationError(Child(path, "cellMeters"), BelowMin(NumericProps[0]))]
    ensures Text(BelowMin(NumericProps[0])) == "Must be > 0"
  {
  }

  function UnitsRangeErrors(units: Json, path: string, n: nat): (errs: seq<ValidationError>)
    requires n <= |NumericProps|
    ensures Catalogued(errs)
  {
    if n == 0 then []
    else UnitsRangeErrors(units, path, n - 1) + UnitErrors(units, NumericProps[n - 1], path)
  }

  /** The optional enumerated units: a truthy `lengthUnit` must be "meters"
      or "metres", a truthy `coordinateSystem` must be "right-handed-y-up". */
  function EnumErrors(units: Json, path: string): (errs: seq<ValidationError>)
    ensures Catalogued(errs) && |errs| <= 2
  {
    LengthUnitErrors(units, path) + CoordinateSystemErrors(units, path)
  }

  function LengthUnitErrors(units: Json, path: string): (errs: seq<ValidationError>)
    ensures Catalogued(errs) && |errs| <= 1
  {
    var lu := Get(units, "lengthUnit");
    if JsonTruthy(lu) && lu.value != JStr("meters") && lu.value != JStr("metres")
    then [ValidationError(Child(path, "lengthUnit"), WrongLengthUnit)] else []
  }

  function CoordinateSystemErrors(units: Json, path: string): (errs: seq<ValidationError>)
    ensures Catalogued(errs) && |errs| <= 1
  {
    var cs := Get(units, "coordinateSystem");
    if JsonTruthy(cs) && cs.value != JStr("right-handed-y-up")
    then [ValidationError(Child(path, "coordinateSystem"), WrongCoordinateSystem)] else []
  }

  /** `units` must be an object holding the four ranged numbers. */
  function UnitsErrors(units: Json, path: string): (errs: seq<ValidationError>)
    requires units != JNull
    ensures Catalogued(errs)
  {
    if !IsObjectType(units) then [ValidationError(path, NotObject)]
    else UnitsRangeErrors(units, path, |NumericProps|) + EnumErrors(units, path)
  }

  /** A `lengthUnit` is acceptable when it is missing or falsy, or one of
      the two spellings of metres. */
  predicate LengthUnitOk(units: Json) {
    var lu := Get(units, "lengthUnit");
    !JsonTruthy(lu) || lu.value == JStr("meters") || lu.value == JStr("metres")
  }

  /** A `coordinateSystem` is acceptable when it is missing or falsy, or the
      right-handed, y-up system. */
  predicate CoordinateSystemOk(units: Json) {
    var cs := Get(units, "coordinateSystem");
    !JsonTruthy(cs) || cs.value == JStr("right-handed-y-up")
  }

  /** The length unit raises no error exactly when it is acceptable, and an
      unsupported one raises exactly one error. */
  lemma LengthUnitClean(units: Json, path: string)
    ensures LengthUnitErrors(units, path) == [] <==> LengthUnitOk(units)
    ensures !LengthUnitOk(units) ==>
              LengthUnitErrors(units, path) == [ValidationError(Child(path, "lengthUnit"), WrongLengthUnit)]
  {
  }

  /** The coordinate system raises no error exactly when it is acceptable. */
  lemma CoordinateSystemClean(units: Json, path: string)
    ensures CoordinateSystemErrors(units, path) == [] <==> CoordinateSystemOk(units)
    ensures !CoordinateSystemOk(units) ==>
              CoordinateSystemErrors(units, path)
              == [ValidationError(Child(path, "coordinateSystem"), WrongCoordinateSystem)]
  {
  }

  /** The `i`-th required unit is present, numeric and within its range. */
  predicate UnitInRange(units: Json, i: nat)
    requires i < |NumericProps|
  {
    var r := NumericProps[i];
    HasProp(units, r.prop) && units.fields[r.prop].JNum? && InRange(units.fields[r.prop].n, r)
  }

  /** The first `n` required units raise no error exactly when each of them is
      present, numeric and within its range. */
  lemma {:induction false} UnitsRangeClean(units: Json, path: string, n: nat)
    requires n <= |NumericProps|
    ensures UnitsRangeErrors(units, path, n) == [] <==> forall i :: 0 <= i < n ==> UnitInRange(units, i)
  {
    if n > 0 {
      UnitsRangeClean(units, path, n - 1);
      UnitAtMostOneError(units, NumericProps[n - 1], path);
      assert (forall i :: 0 <= i < n ==> UnitInRange(units, i)) <==>
             (forall i :: 0 <= i < n - 1 ==> UnitInRange(units, i)) && UnitInRange(units, n - 1);
    }
  }

  /** The units are clean exactly when they form an object whose four required
      units are numbers within their ranges, whose `lengthUnit` is falsy or
      metres, and whose `coordinateSystem` is falsy or right-handed y-up. */
  lemma UnitsClean(units: Json, path: string)
    requires units != JNull
    ensures UnitsErrors(units, path) == [] <==>
              && units.JObj?
              && (forall i :: 0 <= i < |NumericProps| ==> UnitInRange(units, i))
              && LengthUnitOk(units)
              && CoordinateSystemOk(units)
  {
    if IsObjectType(units) {
      UnitsRangeClean(units, path, |NumericProps|);
      LengthUnitClean(units, path);
      CoordinateSystemClean(units, path);
      if !units.JObj? {
        assert !UnitInRange(units, 0);
      }
    }
  }

  // ---------------------------------------------------------------------------
  // validateMeta

  /** `/^1\.[0-9]+$/`: a "1.", then one or more decimal digits, then the end. */
  predicate VersionPattern(s: string) {
    |s| >= 3 && s[0] == '1' && s[1] == '.' && forall i :: 2 <= i < |s| ==> '0' <= s[i] <= '9'
  }

  function SchemaErrors(meta: Json, path: string): (errs: seq<ValidationError>)
    ensures Catalogued(errs)
  {
    var schema := Get(meta, "schema");
    if !JsonTruthy(schema) then [ValidationError(Child(path, "schema"), MissingProperty)]
    else if schema.value != JStr("scene.3d.v1") then [ValidationError(Child(path, "schema"), WrongSchema)]
    else []
  }

  function VersionErrors(meta: Json, path: string): (errs: seq<ValidationError>)
    ensures Catalogued(errs)
  {
    var version := Get(meta, "version");
    if !JsonTruthy(version) then [ValidationError(Child(path, "version"), MissingProperty)]
    else if !version.value.JStr? || !VersionPattern(version.value.s) then
      [ValidationError(Child(path, "version"), WrongVersion)]
    else []
  }

  function NameErrors(meta: Json, path: string): (errs: seq<ValidationError>)
    ensures Catalogued(errs)
  {
    var name := Get(meta, "name");
    if JsonTruthy(name) && (!name.value.JStr? || |name.value.s| == 0 || |name.value.s| > 100) then
      [ValidationError(Child(path, "name"), BadName)]
    else []
  }

  /** `meta` must be an object with schema "scene.3d.v1", a "1.x" version
      string and, when it has a truthy name, a string of 1 to 100 characters. */
  function MetaErrors(meta: Json, path: string): (errs: seq<ValidationError>)
    requires meta != JNull
    ensures Catalogued(errs)
  {
    if !IsObjectType(meta) then [ValidationError(path, NotObject)]
    else SchemaErrors(meta, path) + VersionErrors(meta, path) + NameErrors(meta, path)
  }

  /** The metadata is clean exactly when it is an object whose schema is
      "scene.3d.v1", whose version is a string matching `1.<digits>`, and
      whose name is absent, falsy or a string of at most 100 characters. */
  lemma MetaClean(meta: Json, path: string)
    requires meta != JNull
    ensures MetaErrors(meta, path) == [] <==>
              && meta.JObj?
              && Get(meta, "schema") == Some(JStr("scene.3d.v1"))
              && Get(meta, "version").Some? && Get(meta, "version").value.JStr?
              && VersionPattern(Get(meta, "version").value.s)
              && (!JsonTruthy(Get(meta, "name")) ||
                  (Get(meta, "name").value.JStr? && |Get(meta, "name").value.s| <= 100))
  {
  }

  // ---------------------------------------------------------------------------
  // validateScene3D

  const RequiredProps := ["meta", "units", "bounds", "tiles", "edges", "originOffset"]

  function MissingError(prop: string): ValidationError {
    ValidationError("$." + prop, MissingTopLevel(prop))
  }

  /** One error for each property of `props` the root lacks, in order. */
  function RequiredErrors(obj: Json, props: seq<string>): (errs: seq<ValidationError>)
    ensures |errs| <= |props|
  {
    if props == [] then []
    else
      var p := props[|props| - 1];
      RequiredErrors(obj, props[..|props| - 1]) + (if HasProp(obj, p) then [] else [MissingError(p)])
  }

  /** The nested checks of a root object, each run when its property is truthy. */
  function NestedErrors(obj: Json): (errs: seq<ValidationError>)
    ensures Catalogued(errs)
  {
    MetaPart(obj) + UnitsPart(obj) + BoundsPart(obj) + TilesPart(obj) + EdgesPart(obj) + OffsetPart(obj)
  }

  function MetaPart(obj: Json): (errs: seq<ValidationError>)
    ensures Catalogued(errs)
  {
    var v := Get(obj, "meta");
    if JsonTruthy(v) then MetaErrors(v.value, "$.meta") else []
  }

  function UnitsPart(obj: Json): (errs: seq<ValidationError>)
    ensures Catalogued(errs)
  {
    var v := Get(obj, "units");
    if JsonTruthy(v) then UnitsErrors(v.value, "$.units") else []
  }

  function BoundsPart(obj: Json): (errs: seq<ValidationError>)
    ensures Catalogued(errs)
  {
    var v := Get(obj, "bounds");
    if JsonTruthy(v) then BoundsErrors(v.value, "$.bounds") else []
  }

  function TilesPart(obj: Json): (errs: seq<ValidationError>)
    ensures Catalogued(errs)
  {
    var v := Get(obj, "tiles");
    if JsonTruthy(v) then TilesErrors(v.value, "$.tiles") else []
  }

  function EdgesPart(obj: Json): (errs: seq<ValidationError>)
    ensures Catalogued(errs)
  {
    var v := Get(obj, "edges");
    if JsonTruthy(v) then EdgesErrors(v.value, "$.edges") else []
  }

  function OffsetPart(obj: Json): (errs: seq<ValidationError>)
    ensures Catalogued(errs)
  {
    var v := Get(obj, "originOffset");
    if JsonTruthy(v) then OriginOffsetErrors(v.value, "$.originOffset") else []
  }

  /** Everything validateScene3D reports for a document. */
  function SceneErrors(obj: Json): (errs: seq<ValidationError>)
    ensures |errs| >= 1 || obj.JArr? || obj.JObj?
  {
    if !(obj.JArr? || obj.JObj?) then [ValidationError("$", RootNotObject)]
    else RequiredErrors(obj, RequiredProps) + NestedErrors(obj)
  }

  /** Different properties go missing under different paths. */
  lemma MissingErrorInjective(p: string, q: string)
    ensures MissingError(p) == MissingError(q) ==> p == q
  {
    if MissingError(p) == MissingError(q) {
      assert ("$." + p)[2..] == p && ("$." + q)[2..] == q;
    }
  }

  /** Every missing-property error carries a top-level path. */
  lemma {:induction false} RequiredErrorsPaths(obj: Json, props: seq<string>)
    ensures forall e :: e in RequiredErrors(obj, props) ==> |e.path| >= 2 && e.path[..2] == "$."
    ensures forall e :: e in RequiredErrors(obj, props) ==> e.message.MissingTopLevel?
  {
    if props != [] {
      var p := props[|props| - 1];
      RequiredErrorsPaths(obj, props[..|props| - 1]);
      assert ("$." + p)[..2] == "$.";
    }
  }

  /** The root error is reported, and then alone, exactly when the document
      is not an object or array (null and every primitive included). */
  lemma RootMustBeObject(obj: Json)
    ensures !(obj.JArr? || obj.JObj?) ==> SceneErrors(obj) == [ValidationError("$", RootNotObject)]
    ensures ValidationError("$", RootNotObject) in SceneErrors(obj) <==> !(obj.JArr? || obj.JObj?)
  {
    if obj.JArr? || obj.JObj? {
      RequiredErrorsPaths(obj, RequiredProps);
    }
  }

  /** In a list of distinct property names, each missing one is reported
      exactly once and each other name never. */
  lemma {:induction false} RequiredErrorsCount(obj: Json, props: seq<string>, p: string)
    requires forall i, j :: 0 <= i < j < |props| ==> props[i] != props[j]
    ensures multiset(RequiredErrors(obj, props))[MissingError(p)]
         == if p in props && !HasProp(obj, p) then 1 else 0
  {
    if props != [] {
      var init := props[..|props| - 1];
      var q := props[|props| - 1];
      RequiredErrorsCount(obj, init, p);
      MissingErrorInjective(p, q);
      assert p in props <==> p in init || p == q;
      if p == q {
        assert p !in init;
      }
    }
  }

  lemma RequiredPropsDistinct()
    ensures forall i, j :: 0 <= i < j < |RequiredProps| ==> RequiredProps[i] != RequiredProps[j]
  {
    assert |RequiredProps[0]| == 4 && |RequiredProps[2]| == 6 && |RequiredProps[5]| == 12;
    assert |RequiredProps[1]| == 5 && |RequiredProps[3]| == 5 && |RequiredProps[4]| == 5;
    assert RequiredProps[1][0] == 'u' && RequiredProps[3][0] == 't' && RequiredProps[4][0] == 'e';
  }

  /** Each required top-level property the document lacks is reported
      exactly once, at `$.<prop>`, and a present one never. */
  lemma MissingPropertyReportedOnce(obj: Json, p: string)
    requires obj.JArr? || obj.JObj?
    requires p in RequiredProps
    ensures multiset(SceneErrors(obj))[MissingError(p)] == if HasProp(obj, p) then 0 else 1
  {
    var required := RequiredErrors(obj, RequiredProps);
    var nested := NestedErrors(obj);
    RequiredPropsDistinct();
    RequiredErrorsCount(obj, RequiredProps, p);
    assert MissingError(p) !in nested;
    assert SceneErrors(obj) == required + nested;
    assert multiset(required + nested) == multiset(required) + multiset(nested);
  }

  // ---------------------------------------------------------------------------
  // The validators as the source runs them: appending to one shared list

  /** The shared error list the validators push onto. */
  class ErrorLog {
    var errors: seq<ValidationError>

    constructor()
      ensures errors == []
    {
      errors := [];
    }

    method Push(e: ValidationError)
      modifies this
      ensures errors == old(errors) + [e]
    {
      errors := errors + [e];
    }
  }

  method ValidateGridCoordinate(coord: Json, log: ErrorLog, path: string)
    modifies log
    ensures log.errors == old(log.errors) + GridCoordinateErrors(coord, path)
  {
    if !coord.JArr? {
      log.Push(ValidationError(path, NotArray));
      return;
    }
    if |coord.items| != 2 {
      log.Push(ValidationError(path, NotPair));
      return;
    }
    var index := 0;
    while index < |coord.items|
      invariant 0 <= index <= |coord.items|
      invariant log.errors == old(log.errors) + ElementsErrors(coord.items, path, index)
    {
      var val := coord.items[index];
      if !IsInteger(val) {
        log.Push(ValidationError(Index(path, index), NotInteger));
      } else if val.n < 0.0 || val.n > 1000.0 {
        log.Push(ValidationError(Index(path, index), OutsideGrid));
      }
      Regroup(old(log.errors), ElementsErrors(coord.items, path, index),
              ElementErrors(coord.items[index], Index(path, index)));
      index := index + 1;
    }
  }

  /** The `forEach` over a coordinate list. */
  method ValidateCoordinates(items: seq<Json>, log: ErrorLog, path: string)
    modifies log
    ensures log.errors == old(log.errors) + CoordinatesErrors(items, path, |items|)
  {
    var index := 0;
    while index < |items|
      invariant 0 <= index <= |items|
      invariant log.errors == old(log.errors) + CoordinatesErrors(items, path, index)
    {
      ValidateGridCoordinate(items[index], log, Index(path, index));
      Regroup(old(log.errors), CoordinatesErrors(items, path, index),
              GridCoordinateErrors(items[index], Index(path, index)));
      index := index + 1;
    }
  }

  method ValidateCoordinateList(v: Json, prop: string, log: ErrorLog, path: string)
    modifies log
    ensures log.errors == old(log.errors) + CoordinateListErrors(v, prop, path)
  {
    if !HasProp(v, prop) {
      log.Push(ValidationError(Child(path, prop), MissingProperty));
    } else if !v.fields[prop].JArr? {
      log.Push(ValidationError(Child(path, prop), NotArray));
    } else {
      ValidateCoordinates(v.fields[prop].items, log, Child(path, prop));
    }
  }

  method ValidateTiles(tiles: Json, log: ErrorLog, path: string)
    requires tiles != JNull
    modifies log
    ensures log.errors == old(log.errors) + TilesErrors(tiles, path)
  {
    if !IsObjectType(tiles) {
      log.Push(ValidationError(path, NotObject));
      return;
    }
    ValidateCoordinateList(tiles, "floor", log, path);
  }

  method ValidateEdges(edges: Json, log: ErrorLog, path: string)
    requires edges != JNull
    modifies log
    ensures log.errors == old(log.errors) + EdgesErrors(edges, path)
  {
    if !IsObjectType(edges) {
      log.Push(ValidationError(path, NotObject));
      return;
    }
    var i := 0;
    while i < |EdgeProps|
      invariant 0 <= i <= |EdgeProps|
      invariant log.errors == old(log.errors) + EdgeListsErrors(edges, path, i)
    {
      ValidateCoordinateList(edges, EdgeProps[i], log, path);
      Regroup(old(log.errors), EdgeListsErrors(edges, path, i), CoordinateListErrors(edges, EdgeProps[i], path));
      i := i + 1;
    }
  }

  /** The `forEach` over property names that must be numeric. */
  method ValidateNumberProps(v: Json, props: seq<string>, log: ErrorLog, path: string)
    modifies log
    ensures log.errors == old(log.errors) + NumberPropsErrors(v, props, path, |props|)
  {
    var i := 0;
    while i < |props|
      invariant 0 <= i <= |props|
      invariant log.errors == old(log.errors) + NumberPropsErrors(v, props, path, i)
    {
      var prop := props[i];
      if !HasProp(v, prop) {
        log.Push(ValidationError(Child(path, prop), MissingProperty));
      } else if !v.fields[prop].JNum? {
        log.Push(ValidationError(Child(path, prop), NotNumber));
      }
      Regroup(old(log.errors), NumberPropsErrors(v, props, path, i), NumberPropErrors(v, prop, path));
      i := i + 1;
    }
  }

  /** validatePoint3D, null treated as a non-object. */
  method ValidatePoint3D(point: Json, log: ErrorLog, path: string)
    modifies log
    ensures log.errors == old(log.errors) + Point3DErrors(point, path)
  {
    if !IsObjectType(point) || point.JNull? {
      log.Push(ValidationError(path, NotObject));
      return;
    }
    ValidateNumberProps(point, PointProps, log, path);
  }

  method ValidateBounds(bounds: Json, log: ErrorLog, path: string)
    requires bounds != JNull
    modifies log
    ensures log.errors == old(log.errors) + BoundsErrors(bounds, path)
  {
    if !IsObjectType(bounds) {
      log.Push(ValidationError(path, NotObject));
      return;
    }
    var i := 0;
    while i < |BoundsProps|
      invariant 0 <= i <= |BoundsProps|
      invariant log.errors == old(log.errors) + BoundsPropsErrors(bounds, path, i)
    {
      ValidateBoundsProp(bounds, BoundsProps[i], log, path);
      Regroup(old(log.errors), BoundsPropsErrors(bounds, path, i), BoundsPropErrors(bounds, BoundsProps[i], path));
      i := i + 1;
    }
  }

  method ValidateBoundsProp(bounds: Json, prop: string, log: ErrorLog, path: string)
    modifies log
    ensures log.errors == old(log.errors) + BoundsPropErrors(bounds, prop, path)
  {
    if !HasProp(bounds, prop) {
      log.Push(ValidationError(Child(path, prop), MissingProperty));
    } else {
      ValidatePoint3D(bounds.fields[prop], log, Child(path, prop));
    }
  }

  method ValidateOriginOffset(offset: Json, log: ErrorLog, path: string)
    requires offset != JNull
    modifies log
    ensures log.errors == old(log.errors) + OriginOffsetErrors(offset, path)
  {
    if !IsObjectType(offset) {
      log.Push(ValidationError(path, NotObject));
      return;
    }
    ValidateNumberProps(offset, OffsetProps, log, path);
  }

  method ValidateUnitRange(units: Json, range: NumericRange, log: ErrorLog, path: string)
    requires range in NumericProps
    modifies log
    ensures log.errors == old(log.errors) + UnitErrors(units, range, path)
  {
    var p := Child(path, range.prop);
    if !HasProp(units, range.prop) {
      log.Push(ValidationError(p, MissingProperty));
    } else if !units.fields[range.prop].JNum? {
      log.Push(ValidationError(p, NotNumber));
    } else {
      var val := units.fields[range.prop].n;
      var minCheck := if range.exclusive then val <= range.min else val < range.min;
      if minCheck {
        log.Push(ValidationError(p, BelowMin(range)));
      }
      if val > range.max {
        log.Push(ValidationError(p, AboveMax(range)));
      }
    }
  }

  method ValidateUnits(units: Json, log: ErrorLog, path: string)
    requires units != JNull
    modifies log
    ensures log.errors == old(log.errors) + UnitsErrors(units, path)
  {
    if !IsObjectType(units) {
      log.Push(ValidationError(path, NotObject));
      return;
    }
    var i := 0;
    while i < |NumericProps|
      invariant 0 <= i <= |NumericProps|
      invariant log.errors == old(log.errors) + UnitsRangeErrors(units, path, i)
    {
      ValidateUnitRange(units, NumericProps[i], log, path);
      Regroup(old(log.errors), UnitsRangeErrors(units, path, i), UnitErrors(units, NumericProps[i], path));
      i := i + 1;
    }
    ghost var done := UnitsRangeErrors(units, path, |NumericProps|);
    var lu := Get(units, "lengthUnit");
    if JsonTruthy(lu) && lu.value != JStr("meters") && lu.value != JStr("metres") {
      log.Push(ValidationError(Child(path, "lengthUnit"), WrongLengthUnit));
    }
    Regroup(old(log.errors), done, LengthUnitErrors(units, path));
    done := done + LengthUnitErrors(units, path);
    var cs := Get(units, "coordinateSystem");
    if JsonTruthy(cs) && cs.value != JStr("right-handed-y-up") {
      log.Push(ValidationError(Child(path, "coordinateSystem"), WrongCoordinateSystem));
    }
    Regroup(old(log.errors), done, CoordinateSystemErrors(units, path));
    Regroup(UnitsRangeErrors(units, path, |NumericProps|), LengthUnitErrors(units, path), CoordinateSystemErrors(units, path));
  }

  method ValidateMeta(meta: Json, log: ErrorLog, path: string)
    requires meta != JNull
    modifies log
    ensures log.errors == old(log.errors) + MetaErrors(meta, path)
  {
    if !IsObjectType(meta) {
      log.Push(ValidationError(path, NotObject));
      return;
    }
    var schema := Get(meta, "schema");
    if !JsonTruthy(schema) {
      log.Push(ValidationError(Child(path, "schema"), MissingProperty));
    } else if schema.value != JStr("scene.3d.v1") {
      log.Push(ValidationError(Child(path, "schema"), WrongSchema));
    }
    ghost var done := SchemaErrors(meta, path);
    var version := Get(meta, "version");
    if !JsonTruthy(version) {
      log.Push(ValidationError(Child(path, "version"), MissingProperty));
    } else if !version.value.JStr? || !VersionPattern(version.value.s) {
      log.Push(ValidationError(Child(path, "version"), WrongVersion));
    }
    Regroup(old(log.errors), done, VersionErrors(meta, path));
    done := done + VersionErrors(meta, path);
    var name := Get(meta, "name");
    if JsonTruthy(name) && (!name.value.JStr? || |name.value.s| == 0 || |name.value.s| > 100) {
      log.Push(ValidationError(Child(path, "name"), BadName));
    }
    Regroup(old(log.errors), done, NameErrors(meta, path));
  }

  /** validateScene3D: runs every check on a fresh list and returns it with
      its length. */
  method ValidateScene3D(obj: Json) returns (errors: seq<ValidationError>, count: int)
    ensures errors == SceneErrors(obj)
    ensures count == |errors|
  {
    var log := new ErrorLog();
    if !(obj.JArr? || obj.JObj?) {
      log.Push(ValidationError("$", RootNotObject));
      errors, count := log.errors, |log.errors|;
      return;
    }
    var i := 0;
    while i < |RequiredProps|
      invariant 0 <= i <= |RequiredProps|
      invariant log.errors == RequiredErrors(obj, RequiredProps[..i])
    {
      var prop := RequiredProps[i];
      assert RequiredProps[..i + 1][..i] == RequiredProps[..i];
      if !HasProp(obj, prop) {
        log.Push(MissingError(prop));
      }
      i := i + 1;
    }
    assert RequiredProps[..i] == RequiredProps;
    ValidateNested(obj, log);
    errors, count := log.errors, |log.errors|;
  }

  /** The nested checks, each run when its top-level property is truthy. */
  method ValidateNested(obj: Json, log: ErrorLog)
    modifies log
    ensures log.errors == old(log.errors) + NestedErrors(obj)
  {
    ghost var start := log.errors;
    var meta := Get(obj, "meta");
    if JsonTruthy(meta) {
      ValidateMeta(meta.value, log, "$.meta");
    }
    ghost var done := MetaPart(obj);
    assert log.errors == start + done;
    var units := Get(obj, "units");
    if JsonTruthy(units) {
      ValidateUnits(units.value, log, "$.units");
    }
    Regroup(start, done, UnitsPart(obj));
    done := done + UnitsPart(obj);
    assert log.errors == start + done;
    var bounds := Get(obj, "bounds");
    if JsonTruthy(bounds) {
      ValidateBounds(bounds.value, log, "$.bounds");
    }
    Regroup(start, done, BoundsPart(obj));
    done := done + BoundsPart(obj);
    assert log.errors == start + done;
    var tiles := Get(obj, "tiles");
    if JsonTruthy(tiles) {
      ValidateTiles(tiles.value, log, "$.tiles");
    }
    Regroup(start, done, TilesPart(obj));
    done := done + TilesPart(obj);
    assert log.errors == start + done;
    var edges := Get(obj, "edges");
    if JsonTruthy(edges) {
      ValidateEdges(edges.value, log, "$.edges");
    }
    Regroup(start, done, EdgesPart(obj));
    done := done + EdgesPart(obj);
    assert log.errors == start + done;
    var offset := Get(obj, "originOffset");
    if JsonTruthy(offset) {
      ValidateOriginOffset(offset.value, log, "$.originOffset");
    }
    Regroup(start, done, OffsetPart(obj));
    assert log.errors == start + (done + OffsetPart(obj));
  }

  lemma Regroup(a: seq<ValidationError>, b: seq<ValidationError>, c: seq<ValidationError>)
    ensures (a + b) + c == a + (b + c)
  {
  }
}
