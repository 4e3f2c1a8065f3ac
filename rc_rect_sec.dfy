/** The rectangular reinforced-concrete fiber section of RCrectSec.py: the routine
    buildRCrectsection, which derives the cover and core boundaries of a D x B
    section and emits, to the finite-element library, one section declaration, five
    quadrilateral concrete patches and four straight layers of reinforcing bars, and
    then hands a plot list and a colour list to a plotting routine.
    The library calls are modelled as the descriptors they are given. */
module RCRectSec {
  import opened Geometry

  /** The nineteen arguments of buildRCrectsection, in the order of its signature. */
  datatype Params = Params(
    secTag: int,
    D: real,            // depth, along local y
    B: real,            // width, along local z
    GJ: real,           // torsional stiffness
    coverDepth: real,   // cover measured along y
    coverWidth: real,   // cover measured along z
    coreMatTag: int,
    coverMatTag: int,
    steelMatTag: int,
    numBarsTop: int,
    barAreaTop: real,
    numBarsBot: int,
    barAreaBot: real,
    numBarsIntTot: int, // both intermediate (skin) layers together
    barAreaInt: real,
    nfCoreY: int,
    nfCoreZ: int,
    nfCoverY: int,
    nfCoverZ: int)

  /** One call into the finite-element library. */
  datatype Cmd =
    | Section(secTag: int, GJ: real)                            // section('Fiber', secTag, '-GJ', GJ)
    | Patch(mat: int, nIJ: int, nJK: int, quad: Quad)          // patch('quad', mat, nIJ, nJK, yI, zI, ..., yL, zL)
    | Layer(mat: int, nBars: real, area: real, p1: Point, p2: Point)  // layer('straight', mat, n, area, y1, z1, y2, z2)

  /** What one call produces: the library commands in emission order, the plot
      list and the plot colours. */
  datatype Built = Built(commands: seq<Cmd>, fibSec: seq<Cmd>, matColor: seq<string>)

  /** Half-dimensions of the outer boundary and of the confined core. */
  datatype Bounds = Bounds(coverY: real, coverZ: real, coreY: real, coreZ: real)

  /** The section is physically meaningful: each cover is positive and thinner than
      half the dimension it is measured across. The routine itself checks nothing. */
  predicate ValidGeometry(p: Params)
  {
    0.0 < p.coverDepth < p.D / 2.0 && 0.0 < p.coverWidth < p.B / 2.0
  }

  /** The boundary derivation. The outer boundary sits at half the depth and width;
      the core is the outer boundary moved inwards by the cover; and the geometry is
      valid exactly when the core lies strictly inside the outer boundary and
      strictly around the centre on both axes. */
  function SectionBounds(p: Params): (r: Bounds)
    ensures r.coverY + r.coverY == p.D && r.coverZ + r.coverZ == p.B
    ensures r.coverY - r.coreY == p.coverDepth && r.coverZ - r.coreZ == p.coverWidth
    ensures ValidGeometry(p) <==> Nested(r)
  {
    var coverY := p.D / 2.0;
    var coverZ := p.B / 2.0;
    Bounds(coverY, coverZ, coverY - p.coverDepth, coverZ - p.coverWidth)
  }

  /** Bars per skin layer: Python's true division, so a real. Twice it is the
      total; it is a whole number exactly when the total is even (as the argument
      documentation demands), and for an odd total it is a fraction. */
  function NumBarsInt(numBarsIntTot: int): (r: real)
    ensures r + r == numBarsIntTot as real
    ensures numBarsIntTot % 2 == 0 ==> r == (numBarsIntTot / 2) as real
    ensures numBarsIntTot % 2 == 1 ==> r.Floor as real != r
  {
    numBarsIntTot as real / 2.0
  }

  /** The core lies strictly inside the outer boundary and strictly around the
      centre, on both axes. */
  predicate Nested(b: Bounds)
  {
    0.0 < b.coreY < b.coverY && 0.0 < b.coreZ < b.coverZ
  }

  // The corners of the five patches, in emission order.

  /** The confined core. */
  function CoreQuad(b: Bounds): Quad
  {
    Quad(Point(-b.coreY, b.coreZ), Point(-b.coreY, -b.coreZ),
         Point(b.coreY, -b.coreZ), Point(b.coreY, b.coreZ))
  }

  /** Cover strip on the +z face, running the full depth. */
  function PosZQuad(b: Bounds): Quad
  {
    Quad(Point(-b.coverY, b.coverZ), Point(-b.coreY, b.coreZ),
         Point(b.coreY, b.coreZ), Point(b.coverY, b.coverZ))
  }

  /** Cover strip on the -z face. */
  function NegZQuad(b: Bounds): Quad
  {
    Quad(Point(-b.coreY, -b.coreZ), Point(-b.coverY, -b.coverZ),
         Point(b.coverY, -b.coverZ), Point(b.coreY, -b.coreZ))
  }

  /** Cover strip on the -y (bottom) face, between the two z strips. */
  function NegYQuad(b: Bounds): Quad
  {
    Quad(Point(-b.coverY, b.coverZ), Point(-b.coverY, -b.coverZ),
         Point(-b.coreY, -b.coreZ), Point(-b.coreY, b.coreZ))
  }

  /** Cover strip on the +y (top) face. */
  function PosYQuad(b: Bounds): Quad
  {
    Quad(Point(b.coreY, b.coreZ), Point(b.coreY, -b.coreZ),
         Point(b.coverY, -b.coverZ), Point(b.coverY, b.coverZ))
  }

  // The five patch commands.

  /** The core patch (RCrectSec.py:76). */
  function CorePatch(p: Params): Cmd
  {
    Patch(p.coreMatTag, p.nfCoreZ, p.nfCoreY, CoreQuad(SectionBounds(p)))
  }

  /** The +z cover patch (RCrectSec.py:79). */
  function CoverPosZ(p: Params): Cmd
  {
    Patch(p.coverMatTag, 2, p.nfCoverY, PosZQuad(SectionBounds(p)))
  }

  /** The -z cover patch (RCrectSec.py:80). */
  function CoverNegZ(p: Params): Cmd
  {
    Patch(p.coverMatTag, 2, p.nfCoverY, NegZQuad(SectionBounds(p)))
  }

  /** The -y cover patch (RCrectSec.py:81). */
  function CoverNegY(p: Params): Cmd
  {
    Patch(p.coverMatTag, p.nfCoverZ, 2, NegYQuad(SectionBounds(p)))
  }

  /** The +y cover patch (RCrectSec.py:82). */
  function CoverPosY(p: Params): Cmd
  {
    Patch(p.coverMatTag, p.nfCoverZ, 2, PosYQuad(SectionBounds(p)))
  }

  // The four bar layers, in emission order.

  /** The intermediate skin layer at z = +coreZ (RCrectSec.py:85). */
  function SkinPosZ(p: Params): Cmd
  {
    var b := SectionBounds(p);
    Layer(p.steelMatTag, NumBarsInt(p.numBarsIntTot), p.barAreaInt,
          Point(-b.coreY, b.coreZ), Point(b.coreY, b.coreZ))
  }

  /** The intermediate skin layer at z = -coreZ (RCrectSec.py:86). */
  function SkinNegZ(p: Params): Cmd
  {
    var b := SectionBounds(p);
    Layer(p.steelMatTag, NumBarsInt(p.numBarsIntTot), p.barAreaInt,
          Point(-b.coreY, -b.coreZ), Point(b.coreY, -b.coreZ))
  }

  /** The top layer at y = +coreY (RCrectSec.py:87). */
  function TopLayer(p: Params): Cmd
  {
    var b := SectionBounds(p);
    Layer(p.steelMatTag, p.numBarsTop as real, p.barAreaTop,
          Point(b.coreY, b.coreZ), Point(b.coreY, -b.coreZ))
  }

  /** The bottom layer at y = -coreY (RCrectSec.py:88). */
  function BottomLayer(p: Params): Cmd
  {
    var b := SectionBounds(p);
    Layer(p.steelMatTag, p.numBarsBot as real, p.barAreaBot,
          Point(-b.coreY, b.coreZ), Point(-b.coreY, -b.coreZ))
  }

  /** The plot list (RCrectSec.py:92-97), written out on its own as the routine
      writes it: the section entry and the five patch entries, coordinates
      recomputed from the bounds. */
  function PlotList(p: Params): seq<Cmd>
  {
    var b := SectionBounds(p);
    var (cy, cz, ky, kz) := (b.coverY, b.coverZ, b.coreY, b.coreZ);
    [ Section(p.secTag, p.GJ),
      Patch(p.coreMatTag, p.nfCoreZ, p.nfCoreY,
            Quad(Point(-ky, kz), Point(-ky, -kz), Point(ky, -kz), Point(ky, kz))),
      Patch(p.coverMatTag, 2, p.nfCoverY,
            Quad(Point(-cy, cz), Point(-ky, kz), Point(ky, kz), Point(cy, cz))),
      Patch(p.coverMatTag, 2, p.nfCoverY,
            Quad(Point(-ky, -kz), Point(-cy, -cz), Point(cy, -cz), Point(ky, -kz))),
      Patch(p.coverMatTag, p.nfCoverZ, 2,
            Quad(Point(-cy, cz), Point(-cy, -cz), Point(-ky, -kz), Point(-ky, kz))),
      Patch(p.coverMatTag, p.nfCoverZ, 2,
            Quad(Point(ky, kz), Point(ky, -kz), Point(cy, -cz), Point(cy, cz))) ]
  }

  /** Colours for the plot, one per plot-list entry (RCrectSec.py:98). */
  const MatColor: seq<string> := ["r", "lightgrey", "gold", "w", "w", "w"]

  /** buildRCrectsection. Whatever the arguments, it emits exactly ten commands:
      the section declaration, the core patch in the core material, four cover
      patches in the cover material, and four layers in the steel material; the
      plot list is the first six commands exactly as emitted (no layers), and there
      is one colour per plot entry. */
  function BuildRCRectSection(p: Params): (r: Built)
    ensures |r.commands| == 10
    ensures r.commands[0] == Section(p.secTag, p.GJ)
    ensures forall n :: 1 <= n < 6 ==> r.commands[n].Patch?
    ensures r.commands[1].mat == p.coreMatTag
    ensures forall n :: 2 <= n < 6 ==> r.commands[n].mat == p.coverMatTag
    ensures forall n :: 6 <= n < 10 ==> r.commands[n].Layer? && r.commands[n].mat == p.steelMatTag
    ensures r.fibSec == r.commands[..6]
    ensures forall c :: c in r.fibSec ==> !c.Layer?
    ensures |r.matColor| == |r.fibSec|
  {
    var commands := [Section(p.secTag, p.GJ),
                     CorePatch(p),
                     CoverPosZ(p), CoverNegZ(p), CoverNegY(p), CoverPosY(p),
                     SkinPosZ(p), SkinNegZ(p), TopLayer(p), BottomLayer(p)];
    Built(commands, PlotList(p), MatColor)
  }
}
