/**
 The data-plane tunnel (`DataPlaneSystem` in data_planes.py): planes evenly
 spaced in depth and kept far to near, 28 longitudinal lines running the
 whole depth range along the tunnel walls, and the resize policy that
 rebuilds both only when the x or y extent changes by more than 20%.
 */
module PlaneSystem {
  import opened Numeric
  import opened Geometry
  import opened DataPlane
  import opened PlaneOrder

  /** Planes and lines use this fraction of the x and y extents. */
  const FillFactor: real := 0.95
  /** Horizontal and vertical divisions of the wall grid. */
  const HDivisions: int := 8
  const VDivisions: int := 6
  const LineCount: int := 4 + 2 * (HDivisions - 1) + 2 * (VDivisions - 1)
  /** Relative change of an extent beyond which the scene is rebuilt. */
  const RelayoutThreshold: real := 0.2

  datatype LineKind = Corner | Grid

  /** A `{'start', 'end', 'type'}` longitudinal line. */
  datatype Line = Line(start: Point3, end: Point3, kind: LineKind)

  /** A `DataPlaneSystem`. */
  datatype Scene = Scene(bounds: Bounds, numPlanes: nat, planes: seq<Plane>, lines: seq<Line>)

  datatype Option<T> = None | Some(value: T)

  function PlaneWidth(b: Bounds): real { b.XRange() * FillFactor }
  function PlaneHeight(b: Bounds): real { b.YRange() * FillFactor }

  /** Distance between consecutive planes: the depth range split into
      `numPlanes + 1` equal gaps. */
  function DepthStep(b: Bounds, numPlanes: nat): real
  {
    b.ZRange() / (numPlanes + 1) as real
  }

  /** The depth of the plane created in iteration `i` of `_init_planes`. */
  function PlaneDepth(b: Bounds, numPlanes: nat, i: nat): real
  {
    b.minZ + DepthStep(b, numPlanes) * (i + 1) as real
  }

  /** Every plane depth lies strictly inside a non-empty depth range. */
  lemma PlaneDepthInside(b: Bounds, numPlanes: nat, i: nat)
    requires b.minZ < b.maxZ
    requires i < numPlanes
    ensures b.minZ < PlaneDepth(b, numPlanes, i) < b.maxZ
  {
    var step := DepthStep(b, numPlanes);
    var n1 := (numPlanes + 1) as real;
    assert step * n1 == b.ZRange();
    assert 0.0 < step;
    assert step * (i + 1) as real < step * n1 by {
      assert step * n1 - step * (i + 1) as real == step * (n1 - (i + 1) as real);
    }
  }

  /** The plane created in iteration `numPlanes - 1 - k` sits `numPlanes - k`
      steps into the depth range. */
  lemma ReversedDepth(b: Bounds, numPlanes: nat, k: nat)
    requires k < numPlanes
    ensures PlaneDepth(b, numPlanes, numPlanes - 1 - k) == b.minZ + DepthStep(b, numPlanes) * (numPlanes - k) as real
  {
  }

  /** Plane depths grow with the creation index when the range is non-empty. */
  lemma PlaneDepthIncreasing(b: Bounds, numPlanes: nat, i: nat, j: nat)
    requires b.minZ < b.maxZ
    requires i < j
    ensures PlaneDepth(b, numPlanes, i) < PlaneDepth(b, numPlanes, j)
  {
    var step := DepthStep(b, numPlanes);
    assert 0.0 < step;
    assert step * (j + 1) as real - step * (i + 1) as real == step * (j - i) as real;
  }

  predicate PlaneDrawsOk(b: Bounds, numPlanes: nat, draws: seq<PlaneDraw>)
  {
    && |draws| == numPlanes
    && forall i :: 0 <= i < |draws| ==> PlaneDrawOk(PlaneWidth(b), PlaneHeight(b), draws[i])
  }

  /** The planes in creation order, before the sort. */
  function CreatedPlanes(b: Bounds, numPlanes: nat, draws: seq<PlaneDraw>): (s: seq<Plane>)
    requires PlaneDrawsOk(b, numPlanes, draws)
    ensures |s| == numPlanes
    ensures forall i :: 0 <= i < numPlanes ==> s[i].z == PlaneDepth(b, numPlanes, i)
    ensures forall i :: 0 <= i < numPlanes ==>
              WellFormed(s[i]) && s[i].width == PlaneWidth(b) && s[i].height == PlaneHeight(b)
  {
    seq(numPlanes, i requires 0 <= i < numPlanes =>
      NewPlane(PlaneDepth(b, numPlanes, i), PlaneWidth(b), PlaneHeight(b), draws[i]))
  }

  /** Every plane of a list is well-formed and sized to the bounds. */
  predicate SizedTo(s: seq<Plane>, b: Bounds)
  {
    forall i :: 0 <= i < |s| ==> WellFormed(s[i]) && s[i].width == PlaneWidth(b) && s[i].height == PlaneHeight(b)
  }

  /** `_init_planes`: `numPlanes` full-size planes, evenly spaced strictly
      inside the depth range, ordered far to near. */
  function InitPlanes(b: Bounds, numPlanes: nat, draws: seq<PlaneDraw>): (s: seq<Plane>)
    requires PlaneDrawsOk(b, numPlanes, draws)
    ensures |s| == numPlanes
    ensures FarToNear(s)
    ensures multiset(s) == multiset(CreatedPlanes(b, numPlanes, draws))
    ensures SizedTo(s, b)
  {
    var created := CreatedPlanes(b, numPlanes, draws);
    var sorted := SortFarToNear(created);
    assert SizedTo(sorted, b) by {
      forall i | 0 <= i < |sorted|
        ensures WellFormed(sorted[i]) && sorted[i].width == PlaneWidth(b) && sorted[i].height == PlaneHeight(b)
      {
        assert sorted[i] in multiset(sorted);
        assert sorted[i] in multiset(created);
        var j :| 0 <= j < |created| && created[j] == sorted[i];
      }
    }
    sorted
  }

  /** In creation order the planes go from near to far. */
  lemma CreatedNearToFar(b: Bounds, numPlanes: nat, draws: seq<PlaneDraw>)
    requires PlaneDrawsOk(b, numPlanes, draws)
    requires b.minZ < b.maxZ
    ensures StrictlyNearToFar(CreatedPlanes(b, numPlanes, draws))
  {
    var created := CreatedPlanes(b, numPlanes, draws);
    forall i, j | 0 <= i < j < |created|
      ensures created[i].z < created[j].z
    {
      PlaneDepthIncreasing(b, numPlanes, i, j);
    }
  }

  /** With a non-empty depth range plane `k` (far to near) sits at
      `min_z + (numPlanes - k) * step`: strictly inside the range and strictly
      farther than every plane after it. */
  lemma InitPlanesDepths(b: Bounds, numPlanes: nat, draws: seq<PlaneDraw>)
    requires PlaneDrawsOk(b, numPlanes, draws)
    requires b.minZ < b.maxZ
    ensures var s := InitPlanes(b, numPlanes, draws);
      && StrictlyFarToNear(s)
      && (forall k :: 0 <= k < numPlanes ==> s[k].z == b.minZ + DepthStep(b, numPlanes) * (numPlanes - k) as real)
      && (forall k :: 0 <= k < numPlanes ==> b.minZ < s[k].z < b.maxZ)
  {
    var created := CreatedPlanes(b, numPlanes, draws);
    CreatedNearToFar(b, numPlanes, draws);
    SortOfNearToFarIsReverse(created);
    ReverseOfNearToFar(created);
    ReversedCreatedDepths(b, numPlanes, draws);
  }

  /** The depths of the created planes read backwards. */
  lemma ReversedCreatedDepths(b: Bounds, numPlanes: nat, draws: seq<PlaneDraw>)
    requires PlaneDrawsOk(b, numPlanes, draws)
    requires b.minZ < b.maxZ
    ensures var s := Reverse(CreatedPlanes(b, numPlanes, draws));
      && (forall k :: 0 <= k < numPlanes ==> s[k].z == b.minZ + DepthStep(b, numPlanes) * (numPlanes - k) as real)
      && (forall k :: 0 <= k < numPlanes ==> b.minZ < s[k].z < b.maxZ)
  {
    var created := CreatedPlanes(b, numPlanes, draws);
    var s := Reverse(created);
    forall k | 0 <= k < numPlanes
      ensures s[k].z == b.minZ + DepthStep(b, numPlanes) * (numPlanes - k) as real
      ensures b.minZ < s[k].z < b.maxZ
    {
      var j := numPlanes - 1 - k;
      assert s[k] == created[j];
      ReversedDepth(b, numPlanes, k);
      PlaneDepthInside(b, numPlanes, j);
    }
  }

  /** When the depth range is empty or reversed the planes are already far to
      near in creation order, and the stable sort leaves them there. */
  lemma InitPlanesDegenerateDepth(b: Bounds, numPlanes: nat, draws: seq<PlaneDraw>)
    requires PlaneDrawsOk(b, numPlanes, draws)
    requires b.maxZ <= b.minZ
    ensures InitPlanes(b, numPlanes, draws) == CreatedPlanes(b, numPlanes, draws)
  {
    var created := CreatedPlanes(b, numPlanes, draws);
    var step := DepthStep(b, numPlanes);
    assert step <= 0.0;
    assert FarToNear(created) by {
      forall i, j | 0 <= i <= j < |created|
        ensures created[j].z <= created[i].z
      {
        assert step * (j + 1) as real - step * (i + 1) as real == step * (j - i) as real;
      }
    }
    SortOfFarToNearIsIdentity(created);
  }

  /** A line parallel to the depth axis at `(x, y)` spanning the whole range. */
  function Longitudinal(x: real, y: real, b: Bounds, kind: LineKind): Line
  {
    Line(Point3(x, y, b.minZ), Point3(x, y, b.maxZ), kind)
  }

  /** The point lies on the border of the `width` by `height` rectangle. */
  predicate OnBorder(p: Point3, width: real, height: real)
  {
    p.x == -width / 2.0 || p.x == width / 2.0 || p.y == -height / 2.0 || p.y == height / 2.0
  }

  predicate WithinRectangle(p: Point3, width: real, height: real)
  {
    -width / 2.0 <= p.x <= width / 2.0 && -height / 2.0 <= p.y <= height / 2.0
  }

  /** The coordinate of inner division `i` of a side of length `extent`
      centred on the axis: `-extent/2 + (i / divisions) * extent`. */
  function GridCoordinate(i: nat, divisions: nat, extent: real): (c: real)
    requires 0 < divisions && i <= divisions
    ensures i == 0 ==> c == -extent / 2.0
    ensures i == divisions ==> c == extent / 2.0
    ensures 0.0 <= extent ==> -extent / 2.0 <= c <= extent / 2.0
  {
    var f := i as real / divisions as real;
    assert f * divisions as real == i as real;
    assert 0.0 <= f;
    DivideMonotone(i as real, divisions as real, divisions as real);
    assert f <= 1.0;
    assert extent - f * extent == (1.0 - f) * extent;
    -extent / 2.0 + f * extent
  }

  /** Consecutive divisions are `extent / divisions` apart, so the inner
      division lines split a side into equal parts. */
  lemma GridCoordinateSpacing(i: nat, divisions: nat, extent: real)
    requires 0 < i <= divisions
    ensures GridCoordinate(i, divisions, extent) - GridCoordinate(i - 1, divisions, extent)
            == extent / divisions as real
  {
    var d := divisions as real;
    assert i as real / d - (i - 1) as real / d == 1.0 / d;
    assert (i as real / d) * extent - ((i - 1) as real / d) * extent == (1.0 / d) * extent;
  }

  /** A line of the tunnel walls: parallel to the depth axis, spanning the
      whole depth range, on the border of the 0.95-scaled rectangle (and
      inside it when the extents are not negative). */
  predicate WallLine(l: Line, b: Bounds)
  {
    && l.start.z == b.minZ && l.end.z == b.maxZ
    && l.start.x == l.end.x && l.start.y == l.end.y
    && OnBorder(l.start, PlaneWidth(b), PlaneHeight(b))
    && (0.0 <= PlaneWidth(b) && 0.0 <= PlaneHeight(b) ==> WithinRectangle(l.start, PlaneWidth(b), PlaneHeight(b)))
  }

  /** The first loop: one line through each corner, in the order of `Corners`. */
  function CornerLines(b: Bounds): (lines: seq<Line>)
    ensures |lines| == 4
    ensures forall i :: 0 <= i < 4 ==> lines[i].kind == Corner && WallLine(lines[i], b)
  {
    var cs := Corners(PlaneWidth(b), PlaneHeight(b), 0.0);
    seq(4, k requires 0 <= k < 4 => Longitudinal(cs[k].x, cs[k].y, b, Corner))
  }

  /** The second loop: for each inner horizontal division, a line on the left
      wall and one on the right wall. */
  function RowLines(b: Bounds): (lines: seq<Line>)
    ensures |lines| == 2 * (HDivisions - 1)
    ensures forall i :: 0 <= i < |lines| ==> lines[i].kind == Grid && WallLine(lines[i], b)
    ensures forall i :: 0 <= i < |lines| ==>
              && lines[i].start.x == (if i % 2 == 0 then -PlaneWidth(b) / 2.0 else PlaneWidth(b) / 2.0)
              && lines[i].start.y == GridCoordinate(i / 2 + 1, HDivisions, PlaneHeight(b))
  {
    var w := PlaneWidth(b);
    var h := PlaneHeight(b);
    seq(2 * (HDivisions - 1), k requires 0 <= k < 2 * (HDivisions - 1) =>
      Longitudinal(if k % 2 == 0 then -w / 2.0 else w / 2.0, GridCoordinate(k / 2 + 1, HDivisions, h), b, Grid))
  }

  /** The third loop: for each inner vertical division, a line on the two
      remaining walls. */
  function ColumnLines(b: Bounds): (lines: seq<Line>)
    ensures |lines| == 2 * (VDivisions - 1)
    ensures forall i :: 0 <= i < |lines| ==> lines[i].kind == Grid && WallLine(lines[i], b)
    ensures forall i :: 0 <= i < |lines| ==>
              && lines[i].start.x == GridCoordinate(i / 2 + 1, VDivisions, PlaneWidth(b))
              && lines[i].start.y == (if i % 2 == 0 then -PlaneHeight(b) / 2.0 else PlaneHeight(b) / 2.0)
  {
    var w := PlaneWidth(b);
    var h := PlaneHeight(b);
    seq(2 * (VDivisions - 1), k requires 0 <= k < 2 * (VDivisions - 1) =>
      Longitudinal(GridCoordinate(k / 2 + 1, VDivisions, w), if k % 2 == 0 then -h / 2.0 else h / 2.0, b, Grid))
  }

  /** `_init_longitudinal_lines`: 4 + 2 * 7 + 2 * 5 = 28 lines, the four
      corner lines first and the grid lines after them. */
  function InitLines(b: Bounds): (lines: seq<Line>)
    ensures |lines| == LineCount == 28
    ensures forall i :: 0 <= i < 4 ==> lines[i] == CornerLines(b)[i]
    ensures forall k :: 0 <= k < 2 * (HDivisions - 1) ==> lines[4 + k] == RowLines(b)[k]
    ensures forall k :: 0 <= k < 2 * (VDivisions - 1) ==> lines[4 + 2 * (HDivisions - 1) + k] == ColumnLines(b)[k]
    ensures forall i :: 4 <= i < |lines| ==> lines[i].kind == Grid
    ensures forall i :: 0 <= i < |lines| ==> WallLine(lines[i], b)
  {
    var corners := CornerLines(b);
    var rows := RowLines(b);
    var columns := ColumnLines(b);
    var lines := corners + rows + columns;
    assert forall i :: 0 <= i < |lines| ==> WallLine(lines[i], b) && (lines[i].kind == Corner <==> i < 4) by {
      forall i | 0 <= i < |lines|
        ensures WallLine(lines[i], b) && (lines[i].kind == Corner <==> i < 4)
      {
        if i < 4 {
          assert lines[i] == corners[i];
        } else if i < 4 + |rows| {
          assert lines[i] == rows[i - 4];
        } else {
          assert lines[i] == columns[i - 4 - |rows|];
        }
      }
    }
    lines
  }

  /** The four corner lines run through the corners of every plane sized to
      the bounds, so the tunnel edges join up the plane frames. */
  lemma CornerLinesThroughSizedPlanes(b: Bounds, planes: seq<Plane>)
    requires SizedTo(planes, b)
    ensures forall i, k :: 0 <= i < |planes| && 0 <= k < 4 ==>
              && InitLines(b)[k].start.x == planes[i].corners[k].x
              && InitLines(b)[k].start.y == planes[i].corners[k].y
  {
    var lines := InitLines(b);
    var cs := Corners(PlaneWidth(b), PlaneHeight(b), 0.0);
    forall i, k | 0 <= i < |planes| && 0 <= k < 4
      ensures lines[k].start.x == planes[i].corners[k].x && lines[k].start.y == planes[i].corners[k].y
    {
      assert lines[k] == CornerLines(b)[k] == Longitudinal(cs[k].x, cs[k].y, b, Corner);
      assert planes[i].corners == Corners(PlaneWidth(b), PlaneHeight(b), planes[i].z);
    }
  }

  /** In particular the corner lines join up the frames of the planes the
      scene starts with. */
  lemma CornerLinesThroughPlaneCorners(b: Bounds, numPlanes: nat, draws: seq<PlaneDraw>)
    requires PlaneDrawsOk(b, numPlanes, draws)
    ensures forall i, k :: 0 <= i < numPlanes && 0 <= k < 4 ==>
              && InitLines(b)[k].start.x == InitPlanes(b, numPlanes, draws)[i].corners[k].x
              && InitLines(b)[k].start.y == InitPlanes(b, numPlanes, draws)[i].corners[k].y
  {
    CornerLinesThroughSizedPlanes(b, InitPlanes(b, numPlanes, draws));
  }

  /** `DataPlaneSystem.__init__`. */
  function NewScene(numPlanes: nat, b: Bounds, draws: seq<PlaneDraw>): (s: Scene)
    requires PlaneDrawsOk(b, numPlanes, draws)
    ensures s.bounds == b && s.numPlanes == numPlanes
    ensures |s.planes| == numPlanes && FarToNear(s.planes) && SizedTo(s.planes, b)
    ensures s.planes == InitPlanes(b, numPlanes, draws) && s.lines == InitLines(b)
    ensures |s.lines| == LineCount
  {
    Scene(b, numPlanes, InitPlanes(b, numPlanes, draws), InitLines(b))
  }

  /** `get_farthest_plane_dimensions`: width and height of the first plane of
      greatest depth, or nothing for an empty scene. */
  function FarthestPlaneDimensions(planes: seq<Plane>): (d: Option<(real, real)>)
    ensures d.None? <==> |planes| == 0
    ensures d.Some? ==> exists k :: 0 <= k < |planes| && d.value == (planes[k].width, planes[k].height)
                                   && forall j :: 0 <= j < |planes| ==> planes[j].z <= planes[k].z
  {
    if |planes| == 0 then None
    else
      var k := FarthestIndex(planes);
      Some((planes[k].width, planes[k].height))
  }

  /** Because the planes are kept far to near, the farthest plane is the
      first one. */
  lemma FarthestIsFirstPlane(s: Scene)
    requires FarToNear(s.planes)
    ensures |s.planes| > 0 ==> FarthestPlaneDimensions(s.planes) == Some((s.planes[0].width, s.planes[0].height))
  {
    if |s.planes| > 0 {
      FarthestOfSortedIsFirst(s.planes);
    }
  }

  /** Relative change of an extent; an old extent that is not positive counts
      as a full change. */
  function RelativeChange(oldRange: real, newRange: real): real
  {
    if oldRange > 0.0 then Abs(newRange - oldRange) / oldRange else 1.0
  }

  /** The resize test of `update_bounds`. */
  predicate NeedsRelayout(oldBounds: Bounds, newBounds: Bounds)
  {
    || RelativeChange(oldBounds.XRange(), newBounds.XRange()) > RelayoutThreshold
    || RelativeChange(oldBounds.YRange(), newBounds.YRange()) > RelayoutThreshold
  }

  /** For positive old extents the test says: an extent moved by more than a
      fifth of its old size. */
  lemma NeedsRelayoutIff(oldBounds: Bounds, newBounds: Bounds)
    requires oldBounds.XRange() > 0.0 && oldBounds.YRange() > 0.0
    ensures NeedsRelayout(oldBounds, newBounds) <==>
              || Abs(newBounds.XRange() - oldBounds.XRange()) > RelayoutThreshold * oldBounds.XRange()
              || Abs(newBounds.YRange() - oldBounds.YRange()) > RelayoutThreshold * oldBounds.YRange()
  {
    var ox := oldBounds.XRange();
    var oy := oldBounds.YRange();
    var dx := Abs(newBounds.XRange() - ox);
    var dy := Abs(newBounds.YRange() - oy);
    assert dx / ox > RelayoutThreshold <==> dx > RelayoutThreshold * ox by {
      assert dx / ox * ox == dx;
      assert dx - RelayoutThreshold * ox == (dx / ox - RelayoutThreshold) * ox;
    }
    assert dy / oy > RelayoutThreshold <==> dy > RelayoutThreshold * oy by {
      assert dy / oy * oy == dy;
      assert dy - RelayoutThreshold * oy == (dy / oy - RelayoutThreshold) * oy;
    }
  }

  predicate RelayoutDrawsOk(s: Scene, newBounds: Bounds, draws: seq<PlaneDraw>)
  {
    NeedsRelayout(s.bounds, newBounds) ==> PlaneDrawsOk(newBounds, s.numPlanes, draws)
  }

  /** `update_bounds`: the new bounds are always stored; planes and lines are
      rebuilt for them exactly when the x or y extent changed by more than
      20%, and otherwise kept as they are. */
  function UpdateBounds(s: Scene, newBounds: Bounds, draws: seq<PlaneDraw>): (r: Scene)
    requires RelayoutDrawsOk(s, newBounds, draws)
    ensures r.bounds == newBounds && r.numPlanes == s.numPlanes
    ensures !NeedsRelayout(s.bounds, newBounds) ==> r.planes == s.planes && r.lines == s.lines
    ensures NeedsRelayout(s.bounds, newBounds) ==>
              && |r.planes| == s.numPlanes && FarToNear(r.planes) && SizedTo(r.planes, newBounds)
              && r.planes == InitPlanes(newBounds, s.numPlanes, draws)
              && r.lines == InitLines(newBounds)
  {
    if NeedsRelayout(s.bounds, newBounds) then NewScene(s.numPlanes, newBounds, draws)
    else s.(bounds := newBounds)
  }

  /** A rebuild lays the planes out afresh: strictly far to near, plane k at
      `min_z + (n - k) * step` of the new depth range. */
  lemma RelayoutSpacesPlanes(s: Scene, newBounds: Bounds, draws: seq<PlaneDraw>)
    requires RelayoutDrawsOk(s, newBounds, draws)
    requires NeedsRelayout(s.bounds, newBounds)
    requires newBounds.minZ < newBounds.maxZ
    ensures var r := UpdateBounds(s, newBounds, draws);
      && StrictlyFarToNear(r.planes)
      && forall k :: 0 <= k < s.numPlanes ==>
           r.planes[k].z == newBounds.minZ + DepthStep(newBounds, s.numPlanes) * (s.numPlanes - k) as real
  {
    InitPlanesDepths(newBounds, s.numPlanes, draws);
  }

  /** Only the x and y extents matter: moving or resizing the bounds in depth
      alone, or shifting them without resizing, never rebuilds the scene. */
  lemma SameExtentsKeepLayout(s: Scene, newBounds: Bounds, draws: seq<PlaneDraw>)
    requires s.bounds.XRange() == newBounds.XRange() && s.bounds.YRange() == newBounds.YRange()
    requires s.bounds.XRange() > 0.0 && s.bounds.YRange() > 0.0
    ensures !NeedsRelayout(s.bounds, newBounds)
    ensures UpdateBounds(s, newBounds, draws).planes == s.planes
    ensures UpdateBounds(s, newBounds, draws).lines == s.lines
  {
  }

  /** A scene whose old x or y extent is not positive is always rebuilt. */
  lemma DegenerateExtentRelayouts(oldBounds: Bounds, newBounds: Bounds)
    requires oldBounds.XRange() <= 0.0 || oldBounds.YRange() <= 0.0
    ensures NeedsRelayout(oldBounds, newBounds)
  {
  }

  /** A 20-wide scene widened to 23 (15%) is kept; widened to 25 (25%) it is
      rebuilt. */
  lemma ResizeExamples()
    ensures !NeedsRelayout(Bounds(-10.0, 10.0, -8.0, 8.0, 0.0, 40.0), Bounds(-11.5, 11.5, -8.0, 8.0, 0.0, 40.0))
    ensures NeedsRelayout(Bounds(-10.0, 10.0, -8.0, 8.0, 0.0, 40.0), Bounds(-12.5, 12.5, -8.0, 8.0, 0.0, 40.0))
  {
  }

  predicate SceneTicksOk(s: Scene, ticks: seq<seq<MessageTick>>)
  {
    && |ticks| == |s.planes|
    && forall i :: 0 <= i < |ticks| ==>
         |ticks[i]| == |s.planes[i].messages| && forall j :: 0 <= j < |ticks[i]| ==> MessageTickOk(ticks[i][j])
  }

  /** `DataPlaneSystem.update`: every plane ticks once; nothing moves in depth,
      so the far-to-near order survives. */
  function Update(s: Scene, ticks: seq<seq<MessageTick>>): (r: Scene)
    requires SceneTicksOk(s, ticks)
    ensures r.bounds == s.bounds && r.numPlanes == s.numPlanes && r.lines == s.lines
    ensures |r.planes| == |s.planes|
    ensures forall i :: 0 <= i < |s.planes| ==>
              && r.planes[i].z == s.planes[i].z && r.planes[i].corners == s.planes[i].corners
              && r.planes[i].width == s.planes[i].width && r.planes[i].height == s.planes[i].height
    ensures forall i :: 0 <= i < |s.planes| ==> r.planes[i] == DataPlane.Update(s.planes[i], ticks[i])
    ensures FarToNear(s.planes) ==> FarToNear(r.planes)
    ensures SizedTo(s.planes, s.bounds) ==> SizedTo(r.planes, s.bounds)
  {
    s.(planes := seq(|s.planes|, i requires 0 <= i < |s.planes| => DataPlane.Update(s.planes[i], ticks[i])))
  }
}
