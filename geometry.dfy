/** Plane geometry of a fiber section, in the element's local (y, z) coordinates.
    Orientation is taken with y as the first and z as the second axis, the order in
    which the section commands list every coordinate pair. */
module Geometry {

  datatype Point = Point(y: real, z: real)

  /** The four vertices I, J, K, L of a quadrilateral patch, in the order given. */
  datatype Quad = Quad(i: Point, j: Point, k: Point, l: Point)

  /** Cross product of (b - a) and (p - a): positive when p lies to the left of the
      directed line a -> b, zero when p is on that line. */
  function Cross(a: Point, b: Point, p: Point): real
  {
    (b.y - a.y) * (p.z - a.z) - (b.z - a.z) * (p.y - a.y)
  }

  /** Twice the signed area of a quadrilateral (the shoelace formula). */
  function TwiceArea(q: Quad): real
  {
    (q.i.y * q.j.z - q.j.y * q.i.z) + (q.j.y * q.k.z - q.k.y * q.j.z)
    + (q.k.y * q.l.z - q.l.y * q.k.z) + (q.l.y * q.i.z - q.i.y * q.l.z)
  }

  /** The vertices run counter-clockwise. */
  predicate CounterClockwise(q: Quad)
  {
    TwiceArea(q) > 0.0
  }

  /** The closed region of a convex counter-clockwise quadrilateral: on or to the
      left of every edge. */
  predicate InQuad(q: Quad, p: Point)
  {
    Cross(q.i, q.j, p) >= 0.0 && Cross(q.j, q.k, p) >= 0.0
    && Cross(q.k, q.l, p) >= 0.0 && Cross(q.l, q.i, p) >= 0.0
  }

  /** The open interior: strictly to the left of every edge. */
  predicate InInterior(q: Quad, p: Point)
  {
    Cross(q.i, q.j, p) > 0.0 && Cross(q.j, q.k, p) > 0.0
    && Cross(q.k, q.l, p) > 0.0 && Cross(q.l, q.i, p) > 0.0
  }

  /** The closed axis-aligned rectangle [-hy, hy] x [-hz, hz]. */
  predicate InRectangle(hy: real, hz: real, p: Point)
  {
    -hy <= p.y <= hy && -hz <= p.z <= hz
  }

  /** (a, b) joins two consecutive vertices of q, in either direction. */
  predicate IsEdge(q: Quad, a: Point, b: Point)
  {
    (a, b) in {(q.i, q.j), (q.j, q.k), (q.k, q.l), (q.l, q.i),
               (q.j, q.i), (q.k, q.j), (q.l, q.k), (q.i, q.l)}
  }

  function MirrorY(p: Point): Point
  {
    Point(-p.y, p.z)
  }

  function MirrorZ(p: Point): Point
  {
    Point(p.y, -p.z)
  }

  /** Mirror image of q under y |-> -y. The vertex order is reversed, so that the
      image keeps the orientation (a reflection alone would invert it). */
  function ReflectY(q: Quad): (r: Quad)
    ensures TwiceArea(r) == TwiceArea(q)
  {
    Quad(MirrorY(q.l), MirrorY(q.k), MirrorY(q.j), MirrorY(q.i))
  }

  /** Mirror image of q under z |-> -z, keeping the orientation. */
  function ReflectZ(q: Quad): (r: Quad)
    ensures TwiceArea(r) == TwiceArea(q)
  {
    Quad(MirrorZ(q.l), MirrorZ(q.k), MirrorZ(q.j), MirrorZ(q.i))
  }

  /** The same quadrilateral listed from its third vertex: the vertex set, the
      orientation, and the pairing of opposite edges (IJ with KL, JK with LI) are
      all unchanged, so a patch mesh over it is the same mesh. */
  function HalfTurn(q: Quad): (r: Quad)
    ensures TwiceArea(r) == TwiceArea(q)
    ensures forall p :: InQuad(q, p) <==> InQuad(r, p)
    ensures forall p :: InInterior(q, p) <==> InInterior(r, p)
  {
    Quad(q.k, q.l, q.i, q.j)
  }

  /** Swapping the ends of an edge negates the cross product. */
  lemma CrossSwap(a: Point, b: Point, p: Point)
    ensures Cross(b, a, p) == -Cross(a, b, p)
  {
  }

  /** A reflection negates the cross product. */
  lemma CrossMirrorY(a: Point, b: Point, p: Point)
    ensures Cross(MirrorY(a), MirrorY(b), MirrorY(p)) == -Cross(a, b, p)
  {
  }

  lemma CrossMirrorZ(a: Point, b: Point, p: Point)
    ensures Cross(MirrorZ(a), MirrorZ(b), MirrorZ(p)) == -Cross(a, b, p)
  {
  }

  /** A reflected quadrilateral holds exactly the reflected points, and its
      interior exactly the reflected interior points: each edge of the image is a
      mirrored edge run backwards, which gives back the original cross product. */
  lemma ReflectYRegion(q: Quad, p: Point)
    ensures InQuad(q, p) <==> InQuad(ReflectY(q), MirrorY(p))
    ensures InInterior(q, p) <==> InInterior(ReflectY(q), MirrorY(p))
  {
    var (r, m) := (ReflectY(q), MirrorY(p));
    CrossSwap(q.k, q.l, p); CrossMirrorY(q.l, q.k, p);
    CrossSwap(q.j, q.k, p); CrossMirrorY(q.k, q.j, p);
    CrossSwap(q.i, q.j, p); CrossMirrorY(q.j, q.i, p);
    CrossSwap(q.l, q.i, p); CrossMirrorY(q.i, q.l, p);
    assert Cross(r.i, r.j, m) == Cross(q.k, q.l, p);
    assert Cross(r.j, r.k, m) == Cross(q.j, q.k, p);
    assert Cross(r.k, r.l, m) == Cross(q.i, q.j, p);
    assert Cross(r.l, r.i, m) == Cross(q.l, q.i, p);
  }

  lemma ReflectZRegion(q: Quad, p: Point)
    ensures InQuad(q, p) <==> InQuad(ReflectZ(q), MirrorZ(p))
    ensures InInterior(q, p) <==> InInterior(ReflectZ(q), MirrorZ(p))
  {
    var (r, m) := (ReflectZ(q), MirrorZ(p));
    CrossSwap(q.k, q.l, p); CrossMirrorZ(q.l, q.k, p);
    CrossSwap(q.j, q.k, p); CrossMirrorZ(q.k, q.j, p);
    CrossSwap(q.i, q.j, p); CrossMirrorZ(q.j, q.i, p);
    CrossSwap(q.l, q.i, p); CrossMirrorZ(q.i, q.l, p);
    assert Cross(r.i, r.j, m) == Cross(q.k, q.l, p);
    assert Cross(r.j, r.k, m) == Cross(q.j, q.k, p);
    assert Cross(r.k, r.l, m) == Cross(q.i, q.j, p);
    assert Cross(r.l, r.i, m) == Cross(q.l, q.i, p);
  }
}
