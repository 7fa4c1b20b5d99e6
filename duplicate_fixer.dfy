/**
 * Resolution of duplicate cells: flattening geometry trees to their polygonal
 * parts, the cell polygon with its coordinates swapped, and the choice of one
 * representative row per group of rows that share a hex id.
 */
module DuplicateFixer {
  import opened Wrappers
  import DuplicateFinder

  type HexId = DuplicateFinder.HexId

  /** A coordinate pair, in the order the producer gives it. */
  type Coord = (real, real)

  /**
   * The geometry types a row can carry. A polygon is empty when it has no
   * exterior ring; multi-part geometries and collections hold their members.
   */
  datatype Geometry =
    | Point(coords: seq<Coord>)
    | LineString(coords: seq<Coord>)
    | LinearRing(coords: seq<Coord>)
    | Polygon(exterior: seq<Coord>, interiors: seq<seq<Coord>>)
    | MultiPoint(geoms: seq<Geometry>)
    | MultiLineString(geoms: seq<Geometry>)
    | MultiPolygon(geoms: seq<Geometry>)
    | GeometryCollection(geoms: seq<Geometry>)

  const EmptyPolygon: Geometry := Polygon([], [])

  predicate NonEmptyPolygon(g: Geometry) {
    g.Polygon? && g.exterior != []
  }

  /**
   * The polygons `append_polys` collects from `g`: a non-empty polygon
   * itself, the members of a multi-polygon or collection depth-first in member
   * order, nothing from any other type.
   */
  function Flatten(g: Geometry): (ps: seq<Geometry>)
    ensures forall i :: 0 <= i < |ps| ==> NonEmptyPolygon(ps[i])
    decreases g, 1
  {
    match g
    case Polygon(exterior, _) => if exterior == [] then [] else [g]
    case MultiPolygon(gs) => FlattenAll(gs)
    case GeometryCollection(gs) => FlattenAll(gs)
    case _ => []
  }

  function FlattenAll(gs: seq<Geometry>): (ps: seq<Geometry>)
    ensures forall i :: 0 <= i < |ps| ==> NonEmptyPolygon(ps[i])
    decreases gs, 0
  {
    if gs == [] then [] else Flatten(gs[0]) + FlattenAll(gs[1..])
  }

  /**
   * Reference definition: `p` is a polygonal part of `g` when it is `g` itself,
   * non-empty, or a part of a member of a multi-polygon or collection.
   */
  predicate PolygonPart(g: Geometry, p: Geometry)
    decreases g
  {
    match g
    case Polygon(exterior, _) => exterior != [] && p == g
    case MultiPolygon(gs) => exists i :: 0 <= i < |gs| && PolygonPart(gs[i], p)
    case GeometryCollection(gs) => exists i :: 0 <= i < |gs| && PolygonPart(gs[i], p)
    case _ => false
  }

  predicate PartOfSome(gs: seq<Geometry>, p: Geometry) {
    exists i :: 0 <= i < |gs| && PolygonPart(gs[i], p)
  }

  /** What `Flatten` lists is exactly the polygonal parts of the tree. */
  lemma {:induction false} FlattenParts(g: Geometry, p: Geometry)
    ensures p in Flatten(g) <==> PolygonPart(g, p)
    decreases g, 1
  {
    match g
    case Polygon(_, _) =>
    case MultiPolygon(gs) => FlattenAllParts(gs, p);
    case GeometryCollection(gs) => FlattenAllParts(gs, p);
    case _ =>
  }

  lemma {:induction false} FlattenAllParts(gs: seq<Geometry>, p: Geometry)
    ensures p in FlattenAll(gs) <==> PartOfSome(gs, p)
    decreases gs, 0
  {
    if gs != [] {
      FlattenParts(gs[0], p);
      FlattenAllParts(gs[1..], p);
      if PartOfSome(gs[1..], p) {
        var i :| 0 <= i < |gs[1..]| && PolygonPart(gs[1..][i], p);
        assert PolygonPart(gs[i + 1], p);
      }
      if PartOfSome(gs, p) && !PolygonPart(gs[0], p) {
        var i :| 0 <= i < |gs| && PolygonPart(gs[i], p);
        assert PolygonPart(gs[1..][i - 1], p);
      }
    }
  }

  lemma {:induction false} FlattenAllSnoc(gs: seq<Geometry>, g: Geometry)
    ensures FlattenAll(gs + [g]) == FlattenAll(gs) + Flatten(g)
    decreases |gs|
  {
    if gs == [] {
      assert [g][1..] == [];
    } else {
      assert (gs + [g])[1..] == gs[1..] + [g];
      FlattenAllSnoc(gs[1..], g);
    }
  }

  /** The caller's list that `append_polys` appends to. */
  class PolygonList {
    var polys: seq<Geometry>

    constructor()
      ensures polys == []
    {
      polys := [];
    }
  }

  /**
   * Appends the polygonal parts of `g` to `list`, leaving what was there
   * before as a prefix.
   */
  method AppendPolys(g: Geometry, list: PolygonList)
    modifies list
    ensures list.polys == old(list.polys) + Flatten(g)
    decreases g
  {
    match g {
      case Polygon(exterior, _) =>
        if exterior != [] {
          list.polys := list.polys + [g];
        }
      case MultiPolygon(gs) =>
        AppendMembers(g, gs, list);
      case GeometryCollection(gs) =>
        AppendMembers(g, gs, list);
      case _ =>
    }
  }

  /** The loop over the members of a multi-polygon or collection `g`. */
  method AppendMembers(g: Geometry, gs: seq<Geometry>, list: PolygonList)
    requires (g.MultiPolygon? || g.GeometryCollection?) && gs == g.geoms
    modifies list
    ensures list.polys == old(list.polys) + FlattenAll(gs)
    decreases g, 0
  {
    for i := 0 to |gs|
      invariant list.polys == old(list.polys) + FlattenAll(gs[..i])
    {
      AppendPolys(gs[i], list);
      FlattenAllSnoc(gs[..i], gs[i]);
      assert gs[..i + 1] == gs[..i] + [gs[i]];
    }
    assert gs[..|gs|] == gs;
  }

  /**
   * `keep_only`: a collection becomes the multi-polygon of its polygonal parts,
   * a polygon or multi-polygon stays as it is, anything else becomes the empty
   * polygon.
   */
  function KeepOnly(g: Geometry): (r: Geometry)
    ensures r.Polygon? || r.MultiPolygon?
  {
    if g.GeometryCollection? then MultiPolygon(Flatten(g))
    else if !g.Polygon? && !g.MultiPolygon? then EmptyPolygon
    else g
  }

  /** Each kind of input, and what `keep_only` makes of it. */
  lemma KeepOnlyCases(g: Geometry)
    ensures g.Polygon? || g.MultiPolygon? ==> KeepOnly(g) == g
    ensures g.GeometryCollection? ==>
      KeepOnly(g).MultiPolygon? && forall p :: p in KeepOnly(g).geoms <==> PolygonPart(g, p)
    ensures g.GeometryCollection? ==>
      forall i :: 0 <= i < |KeepOnly(g).geoms| ==> NonEmptyPolygon(KeepOnly(g).geoms[i])
    ensures !g.Polygon? && !g.MultiPolygon? && !g.GeometryCollection? ==> KeepOnly(g) == EmptyPolygon
  {
    if g.GeometryCollection? {
      forall p ensures p in KeepOnly(g).geoms <==> PolygonPart(g, p) {
        FlattenParts(g, p);
      }
    }
  }

  /** Applying `keep_only` twice is applying it once. */
  lemma KeepOnlyIdempotent(g: Geometry)
    ensures KeepOnly(KeepOnly(g)) == KeepOnly(g)
  {
  }

  /** Each pair `(a, b)` of the boundary becomes `(b, a)`. */
  function Swapped(coords: seq<Coord>): (r: seq<Coord>)
    ensures |r| == |coords|
    ensures forall i :: 0 <= i < |r| ==> r[i].0 == coords[i].1 && r[i].1 == coords[i].0
  {
    if coords == [] then []
    else [(coords[0].1, coords[0].0)] + Swapped(coords[1..])
  }

  /** Swapping twice gives back the boundary. */
  lemma SwappedTwice(coords: seq<Coord>)
    ensures Swapped(Swapped(coords)) == coords
  {
    var r := Swapped(Swapped(coords));
    assert forall i :: 0 <= i < |r| ==> r[i] == coords[i];
  }

  /** The ring a polygon is built from: its first coordinate repeated at the end unless it is there. */
  function CloseRing(coords: seq<Coord>): (r: seq<Coord>)
    ensures |coords| <= |r| <= |coords| + 1
    ensures coords == [] ==> r == []
    ensures coords != [] ==> r[..|coords|] == coords && r[|r| - 1] == coords[0]
    ensures coords != [] && coords[0] == coords[|coords| - 1] ==> r == coords
  {
    if coords != [] && coords[0] != coords[|coords| - 1] then coords + [coords[0]] else coords
  }

  /**
   * `cell_to_shapely`: the cell's boundary, from the uninterpreted `boundary`,
   * with each pair swapped, as the exterior ring of a polygon without holes.
   */
  function CellToShapely(boundary: HexId -> seq<Coord>, cell: HexId): (g: Geometry)
    ensures g.Polygon? && g.interiors == []
    ensures |boundary(cell)| <= |g.exterior| <= |boundary(cell)| + 1
    ensures forall i :: 0 <= i < |boundary(cell)| ==>
      g.exterior[i] == (boundary(cell)[i].1, boundary(cell)[i].0)
    ensures g.exterior != [] ==> g.exterior[|g.exterior| - 1] == g.exterior[0]
  {
    Polygon(CloseRing(Swapped(boundary(cell))), [])
  }

  /** The quality value of a row: absent, a NaN, or a number. */
  datatype Evi = Null | NaN | Num(x: real)

  /** Python truthiness: `None` and zero are false, a NaN is true. */
  predicate Falsy(e: Evi) {
    e.Null? || (e.Num? && e.x == 0.0)
  }

  /** A row of a group: its id, its quality value, its geometry and its other attributes. */
  datatype Row<A> = Row(hexId: HexId, evi: Evi, geometry: Geometry, attrs: A)

  /** A row the selection can settle on: the first one, or one with a truthy quality value. */
  predicate Candidate<A>(rows: seq<Row<A>>, j: nat)
    requires j < |rows|
  {
    j == 0 || !Falsy(rows[j].evi)
  }

  /**
   * Among the first `n` rows, `k` is the candidate with the largest area, and
   * the earliest among equals.
   */
  predicate ChoiceAmong<A>(rows: seq<Row<A>>, area: Geometry -> real, n: nat, k: nat)
    requires n <= |rows|
  {
    && k < n
    && Candidate(rows, k)
    && (forall j :: 0 <= j < n && Candidate(rows, j) ==> area(rows[j].geometry) <= area(rows[k].geometry))
    && (forall j :: 0 <= j < k && Candidate(rows, j) ==> area(rows[j].geometry) < area(rows[k].geometry))
  }

  predicate IsChoice<A>(rows: seq<Row<A>>, area: Geometry -> real, k: nat) {
    ChoiceAmong(rows, area, |rows|, k)
  }

  /** At most one row is the choice. */
  lemma ChoiceUnique<A>(rows: seq<Row<A>>, area: Geometry -> real, k1: nat, k2: nat)
    requires IsChoice(rows, area, k1) && IsChoice(rows, area, k2)
    ensures k1 == k2
  {
  }

  /**
   * `deduplicate`: no row is an error; a single row comes back as it is; of
   * two or more, the chosen row is copied with its geometry replaced by the
   * projected cell polygon of the first row's id.
   */
  method Deduplicate<A>(rows: seq<Row<A>>, area: Geometry -> real, project: Geometry -> Geometry,
                        boundary: HexId -> seq<Coord>)
    returns (r: Option<Row<A>>)
    ensures r.None? <==> rows == []
    ensures |rows| == 1 ==> r == Some(rows[0])
    ensures |rows| >= 2 ==>
      exists k: nat :: IsChoice(rows, area, k) && r == Some(rows[k].(geometry := project(CellToShapely(boundary, rows[0].hexId))))
  {
    if |rows| == 0 {
      return None;
    }
    if |rows| == 1 {
      return Some(rows[0]);
    }
    var hexId := rows[0].hexId;
    var hexGeom := project(CellToShapely(boundary, hexId));
    var largestAreaRow := rows[0];
    var largestArea := area(largestAreaRow.geometry);
    ghost var k: nat := 0;
    for idx := 0 to |rows|
      invariant ChoiceAmong(rows, area, if idx == 0 then 1 else idx, k)
      invariant largestAreaRow == rows[k] && largestArea == area(rows[k].geometry)
    {
      var other := rows[idx];
      if Falsy(other.evi) {
        continue;
      }
      var otherArea := area(other.geometry);
      if otherArea > largestArea {
        largestAreaRow := other;
        largestArea := otherArea;
        k := idx;
      }
    }
    var row := largestAreaRow.(geometry := hexGeom);
    r := Some(row);
  }

  /**
   * A group of two where the first row has no quality value but the larger
   * area: the first row is still the choice, since the second is smaller.
   */
  lemma NullFirstScenario<A>(rows: seq<Row<A>>, area: Geometry -> real)
    requires |rows| == 2
    requires rows[0].evi == Null && area(rows[0].geometry) == 50.0
    requires rows[1].evi == Num(0.7) && area(rows[1].geometry) == 30.0
    ensures IsChoice(rows, area, 0)
    ensures forall k :: IsChoice(rows, area, k) ==> k == 0
  {
    forall k | IsChoice(rows, area, k) ensures k == 0 {
      ChoiceUnique(rows, area, 0, k);
    }
  }

  /** A group of three with two rows tying on the largest area: the earlier one wins. */
  lemma TieScenario<A>(rows: seq<Row<A>>, area: Geometry -> real)
    requires |rows| == 3
    requires rows[0].evi == Num(0.2) && area(rows[0].geometry) == 10.0
    requires rows[1].evi == Num(0.5) && area(rows[1].geometry) == 40.0
    requires rows[2].evi == Num(0.5) && area(rows[2].geometry) == 40.0
    ensures IsChoice(rows, area, 1)
    ensures forall k :: IsChoice(rows, area, k) ==> k == 1
  {
    forall k | IsChoice(rows, area, k) ensures k == 1 {
      ChoiceUnique(rows, area, 1, k);
    }
  }

  /** A two-row group whose second row has the larger area but a zero quality value: only the first row can be chosen. */
  lemma ZeroEviScenario<A>(rows: seq<Row<A>>, area: Geometry -> real)
    requires |rows| == 2
    requires rows[0].evi == Num(0.3) && area(rows[0].geometry) == 10.0
    requires rows[1].evi == Num(0.0) && area(rows[1].geometry) == 90.0
    ensures forall k :: IsChoice(rows, area, k) ==> k == 0
  {
    forall k | IsChoice(rows, area, k) ensures k == 0 {
      assert !Candidate(rows, 1);
    }
  }
}
