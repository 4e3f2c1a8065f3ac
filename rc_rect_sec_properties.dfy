/** What the layout of buildRCrectsection guarantees: the boundary arithmetic on the
    sample sections, the skin bar count, the orientation and areas of the five
    patches, how they tile the section, where the bars lie, and the mirror
    symmetries. */
module RCRectSecProperties {
  import opened Geometry
  import opened RCRectSec

  /** The patch quadrilaterals among a list of commands, in order. */
  function PatchQuads(cmds: seq<Cmd>): seq<Quad>
  {
    if cmds == [] then []
    else (if cmds[0].Patch? then [cmds[0].quad] else []) + PatchQuads(cmds[1..])
  }

  /** The five patch quadrilaterals over given bounds, in emission order. */
  function Quads(b: Bounds): seq<Quad>
  {
    [CoreQuad(b), PosZQuad(b), NegZQuad(b), NegYQuad(b), PosYQuad(b)]
  }

  /** Sum of the twice-areas of a list of quadrilaterals. */
  function SumTwiceArea(qs: seq<Quad>): real
  {
    if qs == [] then 0.0 else TwiceArea(qs[0]) + SumTwiceArea(qs[1..])
  }

  /** One step of the filter, from position k of a list. */
  lemma PatchQuadsFrom(cmds: seq<Cmd>, k: int)
    requires 0 <= k < |cmds|
    ensures PatchQuads(cmds[k..])
         == (if cmds[k].Patch? then [cmds[k].quad] else []) + PatchQuads(cmds[k + 1..])
  {
    assert cmds[k..][1..] == cmds[k + 1..];
  }

  /** A declaration, five patches and four layers: the patch quads are the five
      patches' quads, in order. */
  lemma PatchQuadsOfShape(c: seq<Cmd>)
    requires |c| == 10 && !c[0].Patch?
    requires forall n :: 1 <= n < 6 ==> c[n].Patch?
    requires forall n :: 6 <= n < 10 ==> !c[n].Patch?
    ensures PatchQuads(c) == [c[1].quad, c[2].quad, c[3].quad, c[4].quad, c[5].quad]
  {
    assert c[10..] == [];
    PatchQuadsFrom(c, 9);
    PatchQuadsFrom(c, 8);
    PatchQuadsFrom(c, 7);
    PatchQuadsFrom(c, 6);
    assert PatchQuads(c[6..]) == [];
    PatchQuadsFrom(c, 5);
    PatchQuadsFrom(c, 4);
    PatchQuadsFrom(c, 3);
    PatchQuadsFrom(c, 2);
    PatchQuadsFrom(c, 1);
    PatchQuadsFrom(c, 0);
    assert c[0..] == c;
  }

  lemma PatchQuadsOfBuild(p: Params)
    ensures PatchQuads(BuildRCRectSection(p).commands) == Quads(SectionBounds(p))
  {
    PatchQuadsOfShape(BuildRCRectSection(p).commands);
  }

  /** The emitted commands are the section declaration, the five patch commands
      and the four layers, in that order: what the lemmas below state about those
      commands holds of what a call emits. */
  lemma EmittedCommands(p: Params)
    ensures BuildRCRectSection(p).commands
         == [Section(p.secTag, p.GJ), CorePatch(p),
             CoverPosZ(p), CoverNegZ(p), CoverNegY(p), CoverPosY(p)] + Layers(p)
  {
  }

  // ---- Products of signed reals --------------------------------------------

  lemma MulNonneg(a: real, b: real)
    requires a >= 0.0 && b >= 0.0
    ensures a * b >= 0.0
  {
  }

  lemma MulPos(a: real, b: real)
    requires a > 0.0 && b > 0.0
    ensures a * b > 0.0
  {
  }

  /** A positive factor does not change the sign of a product. */
  lemma SignOfFactor(a: real, b: real)
    requires a > 0.0
    ensures a * b > 0.0 ==> b > 0.0
    ensures a * b >= 0.0 ==> b >= 0.0
    ensures a * b < 0.0 ==> b < 0.0
  {
  }

  // ---- The five quads cover the section -----------------------------------

  lemma CoreCovers(b: Bounds, pt: Point)
    requires Nested(b)
    requires InRectangle(b.coreY, b.coreZ, pt)
    ensures InQuad(CoreQuad(b), pt)
  {
    var (ky, kz, y, z) := (b.coreY, b.coreZ, pt.y, pt.z);
    MulNonneg(kz, y + ky);
    MulNonneg(ky, z + kz);
    MulNonneg(kz, ky - y);
    MulNonneg(ky, kz - z);
  }

  /** The strip a point on the +z side of the core falls in is decided by the two
      diagonals that bound the +z strip, from (-coreY, coreZ) and (coreY, coreZ) out
      to the outer corners. */
  lemma CoverBesidePosZ(b: Bounds, pt: Point)
    requires Nested(b)
    requires InRectangle(b.coverY, b.coverZ, pt) && pt.z >= b.coreZ
    ensures InQuad(PosZQuad(b), pt) || InQuad(NegYQuad(b), pt) || InQuad(PosYQuad(b), pt)
  {
    var (cy, cz, ky, kz) := (b.coverY, b.coverZ, b.coreY, b.coreZ);
    if Cross(Point(ky, kz), Point(cy, cz), pt) < 0.0 {
      BeyondPosDiagonal(b, pt);
    } else if Cross(Point(-cy, cz), Point(-ky, kz), pt) < 0.0 {
      BeyondNegDiagonal(b, pt);
    } else {
      BetweenDiagonals(b, pt);
    }
  }

  lemma BeyondPosDiagonal(b: Bounds, pt: Point)
    requires Nested(b)
    requires InRectangle(b.coverY, b.coverZ, pt) && pt.z >= b.coreZ
    requires Cross(Point(b.coreY, b.coreZ), Point(b.coverY, b.coverZ), pt) < 0.0
    ensures InQuad(PosYQuad(b), pt)
  {
    var (cy, cz, ky, kz, y, z) := (b.coverY, b.coverZ, b.coreY, b.coreZ, pt.y, pt.z);
    assert Cross(Point(ky, kz), Point(cy, cz), pt) == (cy - ky) * (z - kz) - (cz - kz) * (y - ky);
    MulNonneg(cy - ky, z - kz);
    SignOfFactor(cz - kz, y - ky);
    MulNonneg(kz, y - ky);
    MulNonneg(cy - ky, z + kz);
    MulNonneg(cz - kz, y - ky);
    MulNonneg(cz, cy - y);
  }

  lemma BeyondNegDiagonal(b: Bounds, pt: Point)
    requires Nested(b)
    requires InRectangle(b.coverY, b.coverZ, pt) && pt.z >= b.coreZ
    requires Cross(Point(-b.coverY, b.coverZ), Point(-b.coreY, b.coreZ), pt) < 0.0
    ensures InQuad(NegYQuad(b), pt)
  {
    var (cy, cz, ky, kz, y, z) := (b.coverY, b.coverZ, b.coreY, b.coreZ, pt.y, pt.z);
    assert Cross(Point(-cy, cz), Point(-ky, kz), pt) == (cy - ky) * (z - cz) + (cz - kz) * (y + cy);
    MulNonneg(cy - ky, z - kz);
    SignOfFactor(cz - kz, y + ky);
    MulNonneg(cz, y + cy);
    MulNonneg(kz, -ky - y);
    MulNonneg(cy - ky, z + kz);
    MulNonneg(cz - kz, -ky - y);
  }

  lemma BetweenDiagonals(b: Bounds, pt: Point)
    requires Nested(b)
    requires InRectangle(b.coverY, b.coverZ, pt) && pt.z >= b.coreZ
    requires Cross(Point(b.coreY, b.coreZ), Point(b.coverY, b.coverZ), pt) >= 0.0
    requires Cross(Point(-b.coverY, b.coverZ), Point(-b.coreY, b.coreZ), pt) >= 0.0
    ensures InQuad(PosZQuad(b), pt)
  {
    var (cy, cz, ky, kz, y, z) := (b.coverY, b.coverZ, b.coreY, b.coreZ, pt.y, pt.z);
    MulNonneg(ky, z - kz);
    MulNonneg(cy, cz - z);
  }

  /** A point of the section level with the core in z and beyond it in +y lies in
      the top strip. */
  lemma CoverAbovePosY(b: Bounds, pt: Point)
    requires Nested(b)
    requires InRectangle(b.coverY, b.coverZ, pt)
    requires -b.coreZ <= pt.z <= b.coreZ && pt.y >= b.coreY
    ensures InQuad(PosYQuad(b), pt)
  {
    var (cy, cz, ky, kz, y, z) := (b.coverY, b.coverZ, b.coreY, b.coreZ, pt.y, pt.z);
    MulNonneg(kz, y - ky);
    MulNonneg(cy - ky, z + kz);
    MulNonneg(cz - kz, y - ky);
    MulNonneg(cz, cy - y);
    MulNonneg(cy - ky, kz - z);
    MulNonneg(cz - kz, y - ky);
  }

  /** The five patches cover the whole D x B section. */
  lemma QuadsCoverSection(b: Bounds, pt: Point)
    requires Nested(b)
    requires InRectangle(b.coverY, b.coverZ, pt)
    ensures exists n :: 0 <= n < 5 && InQuad(Quads(b)[n], pt)
  {
    var (qs, ky, kz) := (Quads(b), b.coreY, b.coreZ);
    if InRectangle(ky, kz, pt) {
      CoreCovers(b, pt);
      assert InQuad(qs[0], pt);
    } else if pt.z >= kz {
      CoverBesidePosZ(b, pt);
      assert InQuad(qs[1], pt) || InQuad(qs[3], pt) || InQuad(qs[4], pt);
    } else if pt.z <= -kz {
      var m := MirrorZ(pt);
      CoverBesidePosZ(b, m);
      assert MirrorZ(m) == pt;
      ReflectZRegion(PosZQuad(b), m);
      ReflectZRegion(NegYQuad(b), m);
      ReflectZRegion(PosYQuad(b), m);
      assert ReflectZ(PosZQuad(b)) == HalfTurn(NegZQuad(b));
      assert ReflectZ(NegYQuad(b)) == HalfTurn(NegYQuad(b));
      assert ReflectZ(PosYQuad(b)) == HalfTurn(PosYQuad(b));
      assert InQuad(qs[2], pt) || InQuad(qs[3], pt) || InQuad(qs[4], pt);
    } else if pt.y >= ky {
      CoverAbovePosY(b, pt);
      assert InQuad(qs[4], pt);
    } else {
      var m := MirrorY(pt);
      CoverAbovePosY(b, m);
      assert MirrorY(m) == pt;
      ReflectYRegion(PosYQuad(b), m);
      assert ReflectY(PosYQuad(b)) == NegYQuad(b);
      assert InQuad(qs[3], pt);
    }
  }

  // ---- The five quads lie within the section ------------------------------

  lemma CoreInside(b: Bounds, pt: Point)
    requires Nested(b) && InQuad(CoreQuad(b), pt)
    ensures InRectangle(b.coreY, b.coreZ, pt)
  {
    var (ky, kz, y, z) := (b.coreY, b.coreZ, pt.y, pt.z);
    SignOfFactor(kz, y + ky);
    SignOfFactor(ky, z + kz);
    SignOfFactor(kz, ky - y);
    SignOfFactor(ky, kz - z);
  }

  /** Inside the diagonal from (-coverY, coverZ) to (-coreY, coreZ), and below the
      outer face, a point is no further than coverY towards -y. */
  lemma InsideNegDiagonal(cy: real, cz: real, ky: real, kz: real, y: real, z: real)
    requires 0.0 < ky < cy && 0.0 < kz < cz && z <= cz
    requires (cy - ky) * (z - cz) + (cz - kz) * (y + cy) >= 0.0
    ensures y >= -cy
  {
    MulNonneg(cy - ky, cz - z);
    SignOfFactor(cz - kz, y + cy);
  }

  /** Inside the diagonal from (coreY, coreZ) to (coverY, coverZ), and below the
      outer face, a point is no further than coverY towards +y. */
  lemma InsidePosDiagonal(cy: real, cz: real, ky: real, kz: real, y: real, z: real)
    requires 0.0 < ky < cy && 0.0 < kz < cz && z <= cz
    requires (cy - ky) * (z - kz) - (cz - kz) * (y - ky) >= 0.0
    ensures y <= cy
  {
    MulNonneg(cy - ky, cz - z);
    SignOfFactor(cz - kz, cy - y);
  }

  lemma PosZInside(b: Bounds, pt: Point)
    requires Nested(b) && InQuad(PosZQuad(b), pt)
    ensures InRectangle(b.coverY, b.coverZ, pt)
  {
    var (cy, cz, ky, kz, y, z) := (b.coverY, b.coverZ, b.coreY, b.coreZ, pt.y, pt.z);
    SignOfFactor(cy, cz - z);
    SignOfFactor(ky, z - kz);
    InsideNegDiagonal(cy, cz, ky, kz, y, z);
    InsidePosDiagonal(cy, cz, ky, kz, y, z);
  }

  lemma PosYInside(b: Bounds, pt: Point)
    requires Nested(b) && InQuad(PosYQuad(b), pt)
    ensures InRectangle(b.coverY, b.coverZ, pt)
  {
    var (cy, cz, ky, kz, y, z) := (b.coverY, b.coverZ, b.coreY, b.coreZ, pt.y, pt.z);
    SignOfFactor(kz, y - ky);
    SignOfFactor(cz, cy - y);
    MulNonneg(cz - kz, cy - y);
    SignOfFactor(cy - ky, z + cz);
    SignOfFactor(cy - ky, cz - z);
  }

  /** No patch reaches outside the D x B section. */
  lemma QuadsInsideSection(b: Bounds, pt: Point, n: int)
    requires Nested(b) && 0 <= n < 5 && InQuad(Quads(b)[n], pt)
    ensures InRectangle(b.coverY, b.coverZ, pt)
  {
    match n
    case 0 => CoreInside(b, pt);
    case 1 => PosZInside(b, pt);
    case 2 =>
      assert ReflectZ(PosZQuad(b)) == HalfTurn(NegZQuad(b));
      assert MirrorZ(MirrorZ(pt)) == pt;
      ReflectZRegion(PosZQuad(b), MirrorZ(pt));
      PosZInside(b, MirrorZ(pt));
    case 3 =>
      assert ReflectY(PosYQuad(b)) == NegYQuad(b);
      assert MirrorY(MirrorY(pt)) == pt;
      ReflectYRegion(PosYQuad(b), MirrorY(pt));
      PosYInside(b, MirrorY(pt));
    case 4 => PosYInside(b, pt);
  }

  // ---- The five quads do not overlap --------------------------------------

  /** Strictly inside the +z strip means strictly beyond the core in +z. */
  lemma PosZInteriorBeyondCore(b: Bounds, pt: Point)
    requires Nested(b)
    ensures InInterior(PosZQuad(b), pt) ==> pt.z > b.coreZ
  {
    SignOfFactor(b.coreY, pt.z - b.coreZ);
  }

  /** Strictly inside the +y strip means strictly beyond the core in +y. */
  lemma PosYInteriorBeyondCore(b: Bounds, pt: Point)
    requires Nested(b)
    ensures InInterior(PosYQuad(b), pt) ==> pt.y > b.coreY
  {
    SignOfFactor(b.coreZ, pt.y - b.coreY);
  }

  /** No point lies strictly inside two of the five patches. Neighbouring patches
      share an edge, which they run along in opposite directions; the two opposite
      strips lie on opposite sides of the core. */
  lemma QuadsInteriorsDisjoint(b: Bounds, pt: Point, m: int, n: int)
    requires Nested(b) && 0 <= m < n < 5
    ensures !(InInterior(Quads(b)[m], pt) && InInterior(Quads(b)[n], pt))
  {
    var (cy, cz, ky, kz) := (b.coverY, b.coverZ, b.coreY, b.coreZ);
    match (m, n)
    case (0, 1) => CrossSwap(Point(ky, kz), Point(-ky, kz), pt);
    case (0, 2) => CrossSwap(Point(-ky, -kz), Point(ky, -kz), pt);
    case (0, 3) => CrossSwap(Point(-ky, kz), Point(-ky, -kz), pt);
    case (0, 4) => CrossSwap(Point(ky, -kz), Point(ky, kz), pt);
    case (1, 3) => CrossSwap(Point(-cy, cz), Point(-ky, kz), pt);
    case (1, 4) => CrossSwap(Point(ky, kz), Point(cy, cz), pt);
    case (2, 3) => CrossSwap(Point(-ky, -kz), Point(-cy, -cz), pt);
    case (2, 4) => CrossSwap(Point(cy, -cz), Point(ky, -kz), pt);
    case (1, 2) =>
      PosZInteriorBeyondCore(b, pt);
      PosZInteriorBeyondCore(b, MirrorZ(pt));
      assert MirrorZ(MirrorZ(pt)) == pt;
      ReflectZRegion(PosZQuad(b), MirrorZ(pt));
      assert ReflectZ(PosZQuad(b)) == HalfTurn(NegZQuad(b));
    case (3, 4) =>
      PosYInteriorBeyondCore(b, pt);
      PosYInteriorBeyondCore(b, MirrorY(pt));
      assert MirrorY(MirrorY(pt)) == pt;
      ReflectYRegion(PosYQuad(b), MirrorY(pt));
      assert ReflectY(PosYQuad(b)) == NegYQuad(b);
  }

  // ---- Areas and orientation ----------------------------------------------

  /** The shoelace areas: the core is 2 coreY x 2 coreZ; each z strip is a
      trapezoid of height coverZ - coreZ between sides 2 coverY and 2 coreY; each y
      strip one of height coverY - coreY between sides 2 coverZ and 2 coreZ. */
  lemma QuadAreas(b: Bounds)
    ensures TwiceArea(CoreQuad(b)) == 8.0 * b.coreY * b.coreZ
    ensures TwiceArea(PosZQuad(b)) == 2.0 * (b.coverY + b.coreY) * (b.coverZ - b.coreZ)
    ensures TwiceArea(NegZQuad(b)) == 2.0 * (b.coverY + b.coreY) * (b.coverZ - b.coreZ)
    ensures TwiceArea(NegYQuad(b)) == 2.0 * (b.coverY - b.coreY) * (b.coverZ + b.coreZ)
    ensures TwiceArea(PosYQuad(b)) == 2.0 * (b.coverY - b.coreY) * (b.coverZ + b.coreZ)
  {
  }

  /** The five areas add up to the area of the whole 2 coverY x 2 coverZ section,
      whatever the bounds. */
  lemma QuadAreasSum(b: Bounds)
    ensures SumTwiceArea(Quads(b)) == 8.0 * b.coverY * b.coverZ
  {
    var qs := Quads(b);
    QuadAreas(b);
    assert qs[4..][1..] == [];
    assert qs[3..][1..] == qs[4..];
    assert qs[2..][1..] == qs[3..];
    assert qs[1..][1..] == qs[2..];
    assert SumTwiceArea(qs) == TwiceArea(qs[0]) + SumTwiceArea(qs[1..]);
    assert SumTwiceArea(qs[1..]) == TwiceArea(qs[1]) + SumTwiceArea(qs[2..]);
    assert SumTwiceArea(qs[2..]) == TwiceArea(qs[2]) + SumTwiceArea(qs[3..]);
    assert SumTwiceArea(qs[3..]) == TwiceArea(qs[3]) + SumTwiceArea(qs[4..]);
    assert SumTwiceArea(qs[4..]) == TwiceArea(qs[4]);
  }

  /** With the core strictly inside the outer boundary, every patch runs
      counter-clockwise. */
  lemma QuadsCounterClockwise(b: Bounds)
    requires Nested(b)
    ensures forall n :: 0 <= n < 5 ==> CounterClockwise(Quads(b)[n])
  {
    var (cy, cz, ky, kz) := (b.coverY, b.coverZ, b.coreY, b.coreZ);
    QuadAreas(b);
    MulPos(ky, kz);
    MulPos(cy + ky, cz - kz);
    MulPos(cy - ky, cz + kz);
  }

  // ---- What one call of buildRCrectsection lays out -------------------------

  /** The quadrilaterals of the patches a call emits. */
  function EmittedQuads(p: Params): seq<Quad>
  {
    PatchQuads(BuildRCRectSection(p).commands)
  }

  /** pt lies in the closed D x B section, centred on the origin. */
  predicate InSection(p: Params, pt: Point)
  {
    InRectangle(p.D / 2.0, p.B / 2.0, pt)
  }

  /** For valid geometry every emitted patch runs counter-clockwise. */
  lemma PatchesCounterClockwise(p: Params)
    requires ValidGeometry(p)
    ensures |EmittedQuads(p)| == 5
    ensures forall n :: 0 <= n < 5 ==> CounterClockwise(EmittedQuads(p)[n])
  {
    PatchQuadsOfBuild(p);
    QuadsCounterClockwise(SectionBounds(p));
  }

  /** The emitted patch areas add up to D x B, for any arguments (signed areas;
      with valid geometry each of them is positive). */
  lemma PatchAreasSumToSection(p: Params)
    ensures SumTwiceArea(EmittedQuads(p)) == 2.0 * p.D * p.B
  {
    PatchQuadsOfBuild(p);
    QuadAreasSum(SectionBounds(p));
  }

  /** For valid geometry the emitted patches tile the D x B section: every point of
      the section lies in some patch, every point of a patch lies in the section,
      and no point lies strictly inside two patches. */
  lemma PatchesTileSection(p: Params)
    requires ValidGeometry(p)
    ensures |EmittedQuads(p)| == 5
    ensures forall pt :: InSection(p, pt) ==>
              exists n :: 0 <= n < 5 && InQuad(EmittedQuads(p)[n], pt)
    ensures forall n, pt :: 0 <= n < 5 && InQuad(EmittedQuads(p)[n], pt) ==>
              InSection(p, pt)
    ensures forall m, n, pt :: 0 <= m < n < 5 ==>
              !(InInterior(EmittedQuads(p)[m], pt) && InInterior(EmittedQuads(p)[n], pt))
  {
    var b := SectionBounds(p);
    PatchQuadsOfBuild(p);
    forall pt | InSection(p, pt)
      ensures exists n :: 0 <= n < 5 && InQuad(EmittedQuads(p)[n], pt)
    {
      QuadsCoverSection(b, pt);
      assert EmittedQuads(p) == Quads(b);
    }
    forall n, pt | 0 <= n < 5 && InQuad(EmittedQuads(p)[n], pt)
      ensures InSection(p, pt)
    {
      QuadsInsideSection(b, pt, n);
    }
    forall m, n, pt | 0 <= m < n < 5
      ensures !(InInterior(EmittedQuads(p)[m], pt) && InInterior(EmittedQuads(p)[n], pt))
    {
      QuadsInteriorsDisjoint(b, pt, m, n);
    }
  }

  /** The core patch is exactly the core rectangle [-coreY, coreY] x [-coreZ, coreZ],
      in the core material, with nfCoreZ fibers along its IJ edge, which runs along
      z, and nfCoreY along its JK edge, which runs along y. */
  lemma CorePatchIsCoreRectangle(p: Params)
    requires ValidGeometry(p)
    ensures var c, b := CorePatch(p), SectionBounds(p);
      && c.Patch? && c.mat == p.coreMatTag
      && c.nIJ == p.nfCoreZ && c.quad.i.y == c.quad.j.y
      && c.nJK == p.nfCoreY && c.quad.j.z == c.quad.k.z
      && forall pt :: InQuad(c.quad, pt) <==> InRectangle(b.coreY, b.coreZ, pt)
  {
    var b := SectionBounds(p);
    forall pt ensures InQuad(CoreQuad(b), pt) <==> InRectangle(b.coreY, b.coreZ, pt) {
      if InRectangle(b.coreY, b.coreZ, pt) {
        CoreCovers(b, pt);
      }
      if InQuad(CoreQuad(b), pt) {
        CoreInside(b, pt);
      }
    }
  }

  /** A corner of the outer boundary. */
  predicate OuterCorner(b: Bounds, pt: Point)
  {
    (pt.y == b.coverY || pt.y == -b.coverY) && (pt.z == b.coverZ || pt.z == -b.coverZ)
  }

  /** A corner of the core. */
  predicate CoreCorner(b: Bounds, pt: Point)
  {
    (pt.y == b.coreY || pt.y == -b.coreY) && (pt.z == b.coreZ || pt.z == -b.coreZ)
  }

  /** The segment u-v runs across the cover, from an outer corner to a core corner
      or back. */
  predicate Spans(b: Bounds, u: Point, v: Point)
  {
    (OuterCorner(b, u) && CoreCorner(b, v)) || (CoreCorner(b, u) && OuterCorner(b, v))
  }

  /** Each cover patch has 2 fibers across the cover, on the edge pair that joins
      the outer boundary to the core, and nfCoverY (the two z strips) or nfCoverZ
      (the two y strips) along its long sides, which run along y or z. */
  lemma CoverSubdivisions(p: Params)
    ensures var b := SectionBounds(p);
      forall c :: c in [CoverPosZ(p), CoverNegZ(p)] ==>
        && c.Patch? && c.mat == p.coverMatTag
        && c.nIJ == 2 && Spans(b, c.quad.i, c.quad.j)
        && c.nJK == p.nfCoverY && c.quad.j.z == c.quad.k.z
    ensures var b := SectionBounds(p);
      forall c :: c in [CoverNegY(p), CoverPosY(p)] ==>
        && c.Patch? && c.mat == p.coverMatTag
        && c.nIJ == p.nfCoverZ && c.quad.i.y == c.quad.j.y
        && c.nJK == 2 && Spans(b, c.quad.j, c.quad.k)
  {
  }

  // ---- Reinforcement -------------------------------------------------------

  /** The skin layers lie at z = +coreZ and z = -coreZ and the top and bottom layers
      at y = +coreY and y = -coreY; each runs, in the steel material, along one
      edge of the core patch from one core corner to the next, the four layers
      taking the four different edges. */
  lemma LayersOnCoreBoundary(p: Params)
    ensures var (b, core) := (SectionBounds(p), CorePatch(p).quad);
      && (forall c :: c in [SkinPosZ(p), SkinNegZ(p), TopLayer(p), BottomLayer(p)] ==>
            c.Layer? && c.mat == p.steelMatTag && IsEdge(core, c.p1, c.p2))
      && SkinPosZ(p).p1.z == SkinPosZ(p).p2.z == b.coreZ
      && SkinNegZ(p).p1.z == SkinNegZ(p).p2.z == -b.coreZ
      && SkinPosZ(p).p1.y == SkinNegZ(p).p1.y == -b.coreY
      && SkinPosZ(p).p2.y == SkinNegZ(p).p2.y == b.coreY
      && TopLayer(p).p1.y == TopLayer(p).p2.y == b.coreY
      && BottomLayer(p).p1.y == BottomLayer(p).p2.y == -b.coreY
      && TopLayer(p).p1.z == BottomLayer(p).p1.z == b.coreZ
      && TopLayer(p).p2.z == BottomLayer(p).p2.z == -b.coreZ
    // the top and bottom rows carry their own bar counts and areas
    ensures TopLayer(p).nBars == p.numBarsTop as real && TopLayer(p).area == p.barAreaTop
    ensures BottomLayer(p).nBars == p.numBarsBot as real && BottomLayer(p).area == p.barAreaBot
    // the skin layers end exactly at the end points of the top and bottom rows, the
    // four core corners, so every corner is an end point of two layers
    ensures SkinPosZ(p).p2 == TopLayer(p).p1 && SkinNegZ(p).p2 == TopLayer(p).p2
    ensures SkinPosZ(p).p1 == BottomLayer(p).p1 && SkinNegZ(p).p1 == BottomLayer(p).p2
  {
  }

  /** The four layers in emission order. */
  function Layers(p: Params): seq<Cmd>
  {
    [SkinPosZ(p), SkinNegZ(p), TopLayer(p), BottomLayer(p)]
  }

  /** For valid geometry no two layers share an edge of the core: each of the
      four edges carries exactly one layer. */
  lemma LayersOnDistinctEdges(p: Params)
    requires ValidGeometry(p)
    ensures forall m, n :: 0 <= m < n < 4 ==>
      {Layers(p)[m].p1, Layers(p)[m].p2} != {Layers(p)[n].p1, Layers(p)[n].p2}
  {
    var ls := Layers(p);
    forall m, n | 0 <= m < n < 4
      ensures {ls[m].p1, ls[m].p2} != {ls[n].p1, ls[n].p2}
    {
      if n == 3 && m < 2 {
        assert ls[m].p2 !in {ls[n].p1, ls[n].p2};
      } else {
        assert ls[m].p1 !in {ls[n].p1, ls[n].p2};
      }
    }
  }

  /** For valid geometry every bar of a layer lies on the boundary of the core
      patch: each point of the segment from p1 to p2 is in the core patch and not
      in its interior. */
  lemma BarsOnCoreBoundary(p: Params, c: Cmd, t: real)
    requires ValidGeometry(p)
    requires c in [SkinPosZ(p), SkinNegZ(p), TopLayer(p), BottomLayer(p)]
    requires 0.0 <= t <= 1.0
    ensures var pt := Point(c.p1.y + t * (c.p2.y - c.p1.y), c.p1.z + t * (c.p2.z - c.p1.z));
      InQuad(CorePatch(p).quad, pt) && !InInterior(CorePatch(p).quad, pt)
  {
    var b := SectionBounds(p);
    var pt := Point(c.p1.y + t * (c.p2.y - c.p1.y), c.p1.z + t * (c.p2.z - c.p1.z));
    MulNonneg(t, 2.0 * b.coreY);
    MulNonneg(1.0 - t, 2.0 * b.coreY);
    MulNonneg(t, 2.0 * b.coreZ);
    MulNonneg(1.0 - t, 2.0 * b.coreZ);
    assert InRectangle(b.coreY, b.coreZ, pt);
    CoreCovers(b, pt);
  }

  /** Intermediate bars. With an even total, as the argument documentation demands,
      each skin layer has half the bars, a whole number, and the two together carry
      exactly the total. */
  lemma SkinBarsCarryTotal(p: Params)
    requires p.numBarsIntTot % 2 == 0
    ensures SkinPosZ(p).nBars == SkinNegZ(p).nBars == (p.numBarsIntTot / 2) as real
    ensures SkinPosZ(p).nBars + SkinNegZ(p).nBars == p.numBarsIntTot as real
    ensures SkinPosZ(p).area == SkinNegZ(p).area == p.barAreaInt
  {
  }

  // ---- Symmetry --------------------------------------------------------------

  /** The layout is symmetric about both axes. The -z cover strip is the mirror
      image of the +z strip under z |-> -z (listed from its third corner, which is
      the same mesh), and the +y strip that of the -y strip under y |-> -y; each of
      the core and the other strips is its own mirror image; the -z skin layer is
      the z-mirror of the +z one, and the bottom layer lies on the y-mirror of the
      top one's line. */
  lemma MirrorSymmetries(p: Params)
    ensures CoverPosZ(p).Patch? && CoverNegY(p).Patch? && SkinPosZ(p).Layer?
    ensures CoverNegZ(p) == CoverPosZ(p).(quad := HalfTurn(ReflectZ(CoverPosZ(p).quad)))
    ensures CoverPosY(p) == CoverNegY(p).(quad := ReflectY(CoverNegY(p).quad))
    ensures CoverPosZ(p).quad == ReflectY(CoverPosZ(p).quad)
    ensures CoverNegY(p).quad == HalfTurn(ReflectZ(CoverNegY(p).quad))
    ensures CorePatch(p).quad == ReflectY(CorePatch(p).quad)
                              == HalfTurn(ReflectZ(CorePatch(p).quad))
    ensures SkinNegZ(p) == SkinPosZ(p).(p1 := MirrorZ(SkinPosZ(p).p1), p2 := MirrorZ(SkinPosZ(p).p2))
    ensures BottomLayer(p).p1 == MirrorY(TopLayer(p).p1)
    ensures BottomLayer(p).p2 == MirrorY(TopLayer(p).p2)
    // mirror-image strips have the same area
    ensures TwiceArea(CoverNegZ(p).quad) == TwiceArea(CoverPosZ(p).quad)
    ensures TwiceArea(CoverPosY(p).quad) == TwiceArea(CoverNegY(p).quad)
  {
  }

  // ---- The two sections of the example script ---------------------------------

  /** The 300 x 400 column: depth 0.4, width 0.3, cover 0.04, three bars top and
      bottom, four intermediate bars, 8 fibers everywhere. The bar area is the
      25 mm bar's, which involves pi and is left a parameter. */
  function ExampleColumn(rebar: real): Params
  {
    Params(1, 0.4, 0.3, 10000.0, 0.04, 0.04, 2, 1, 3, 3, rebar, 3, rebar, 4, rebar, 8, 8, 8, 8)
  }

  /** The 300 x 600 beam: as the column with depth 0.6. */
  function ExampleBeam(rebar: real): Params
  {
    Params(2, 0.6, 0.3, 10000.0, 0.04, 0.04, 2, 1, 3, 3, rebar, 3, rebar, 4, rebar, 8, 8, 8, 8)
  }

  lemma ExampleSections(rebar: real)
    ensures SectionBounds(ExampleColumn(rebar)) == Bounds(0.2, 0.15, 0.16, 0.11)
    ensures SectionBounds(ExampleBeam(rebar)) == Bounds(0.3, 0.15, 0.26, 0.11)
    ensures ValidGeometry(ExampleColumn(rebar)) && ValidGeometry(ExampleBeam(rebar))
    ensures SkinPosZ(ExampleColumn(rebar)).nBars == SkinPosZ(ExampleBeam(rebar)).nBars == 2.0
  {
  }
}
