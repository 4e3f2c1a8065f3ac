# Rectangular RC fiber section: a Dafny model

This project models `buildRCrectsection` from `RCrectSec.py`. The routine lays out a
rectangular reinforced-concrete fiber section for the OpenSees finite-element
library. From the depth `D`, the width `B` and the two cover thicknesses it derives
two boundaries: the outer (cover) boundary at `D/2`, `B/2`, and the inner (core)
boundary, one cover thickness further in. It then makes these library calls, in
this order:

- one fiber `section` declaration;
- one `patch('quad', …)` for the confined core;
- four `patch('quad', …)` cover strips around the core;
- four `layer('straight', …)` bar layers: two intermediate (skin) layers at
  `z = ±coreZ`, then the top layer at `y = +coreY` and the bottom layer at
  `y = −coreY`.

Last, it builds the list `fib_sec` and the colour list `matcolor` for the
plotting routine.

Every library call is modelled as the descriptor it is given (`RCRectSec.Cmd`). The
routine becomes a pure function, `RCRectSec.BuildRCRectSection`, from the nineteen
arguments (`RCRectSec.Params`) to the emitted commands, the plot list and the
colours (`RCRectSec.Built`). Lengths, areas and the torsional stiffness are `real`.
The skin-layer bar count is a `real` as well, because `numBarsIntTot / 2` is
Python's true division. The top and bottom counts are integer arguments, and the
model converts them to `real` so that all three layer kinds share one `Layer`
descriptor. A Dafny function gives the same result every time it is called with the
same arguments, so two calls with the same arguments emit the same commands.

Files:

- `geometry.dfy` (module `Geometry`): points in the local (y, z) plane,
  quadrilaterals, the cross product, the shoelace area and regions. It also has the
  reflections, which reverse the vertex order so that orientation is kept, and the
  half-turn, which lists a quad from its third corner.
- `rc_rect_sec.dfy` (module `RCRectSec`): the model of the routine.
- `rc_rect_sec_properties.dfy` (module `RCRectSecProperties`): what the layout
  guarantees.

Orientation and areas use y as the first coordinate and z as the second, the order
in which each coordinate pair is passed to the library. With that convention all
five emitted patches run counter-clockwise.

`matcolor` (`RCrectSec.py:98`) has six entries, one per `fib_sec` entry, the section
entry included.

## Model

| member | source | states |
|---|---|---|
| RCRectSec.SectionBounds | RCrectSec.py:66-69 | The outer boundary is half the depth and half the width. The core is that boundary moved in by `cover_depth` along y and by `cover_width` along z. The geometry is valid (`0 < cover_depth < D/2` and `0 < cover_width < B/2`) exactly when `0 < coreY < coverY` and `0 < coreZ < coverZ`. |
| RCRectSec.NumBarsInt | RCrectSec.py:70 | The bars per skin layer are exactly half the intermediate total, as a real. This is a whole number, `numBarsIntTot / 2`, when the total is even. When the total is odd it is not a whole number. |
| RCRectSec.BuildRCRectSection | RCrectSec.py:64-98 | For any arguments, exactly ten commands are emitted: `Section(secTag, GJ)`, then one patch in the core material, then four patches in the cover material, then four layers in the steel material. The plot list equals the first six emitted commands and holds no layer. There is one colour for each plot entry. |
| RCRectSecProperties.EmittedCommands | RCrectSec.py:73-88 | The commands a call emits are, in order, the section declaration, the core patch, the +z, −z, −y and +y cover strips, and the four layers of `Layers`. So the lemmas below, which are stated about those patch and layer commands, are about exactly what is emitted. |
| RCRectSecProperties.CorePatchIsCoreRectangle | RCrectSec.py:76 | For valid geometry, the points of the core patch are exactly the rectangle `[-coreY, coreY] x [-coreZ, coreZ]`. The patch is in the core material. Its IJ edge runs along z and has `nfCoreZ` fibers; its JK edge runs along y and has `nfCoreY`. |
| RCRectSecProperties.CoverSubdivisions | RCrectSec.py:79-82 | Each cover patch is in the cover material. It has 2 fibers on the edge that crosses the cover, from an outer corner to a core corner. Along its long side it has `nfCoverY` fibers (the two z strips, long side along y) or `nfCoverZ` fibers (the two y strips, long side along z). |
| RCRectSecProperties.QuadAreas | RCrectSec.py:76-82 | The shoelace areas: the core is `4·coreY·coreZ`. Each ±z strip is `(coverY+coreY)(coverZ−coreZ)`. Each ±y strip is `(coverY−coreY)(coverZ+coreZ)`. |
| RCRectSecProperties.QuadsCounterClockwise | RCrectSec.py:76-82 | When the core lies strictly inside the outer boundary, every one of the five corner lists has positive signed area, so each runs counter-clockwise. |
| RCRectSecProperties.PatchesCounterClockwise | RCrectSec.py:76-82 | For valid arguments, the emitted commands contain exactly five patches, and each runs counter-clockwise. |
| RCRectSecProperties.PatchAreasSumToSection | RCrectSec.py:76-82 | For any arguments, the signed areas of the emitted patches add up to `D·B`. |
| RCRectSecProperties.QuadsCoverSection | RCrectSec.py:24-37 | Every point of the closed `2·coverY x 2·coverZ` section lies in the core or in one of the four cover trapezoids, as drawn in the header diagram. |
| RCRectSecProperties.QuadsInsideSection | RCrectSec.py:76-82 | Every point of each of the five patches lies within the section. |
| RCRectSecProperties.QuadsInteriorsDisjoint | RCrectSec.py:76-82 | No point lies strictly inside two different patches. |
| RCRectSecProperties.PatchesTileSection | RCrectSec.py:76-82 | For valid arguments, the emitted patches tile the `D x B` section centred on the origin: they cover it, they stay within it, and their interiors do not overlap. |
| RCRectSecProperties.LayersOnCoreBoundary | RCrectSec.py:85-88 | All four layers are in the steel material, and each runs along an edge of the core patch. The skin layers lie at `z = +coreZ` and `z = −coreZ` and span y from `−coreY` to `+coreY`. The top layer lies at `y = +coreY` and the bottom layer at `y = −coreY`; each spans z from `+coreZ` to `−coreZ`. The top layer carries `numBarsTop` bars of area `barAreaTop`, and the bottom layer `numBarsBot` bars of area `barAreaBot`. The skin layers end exactly at the end points of the top and bottom layers, the four core corners, so each corner is an end point of two layers. |
| RCRectSecProperties.LayersOnDistinctEdges | RCrectSec.py:85-88 | For valid geometry, no two layers lie on the same core edge, so the four layers take the four edges. |
| RCRectSecProperties.BarsOnCoreBoundary | RCrectSec.py:85-88 | For valid geometry, every point of every layer's segment lies on the boundary of the core patch: it is in the patch but not in its interior. |
| RCRectSecProperties.SkinBarsCarryTotal | RCrectSec.py:85-86 | When `numBarsIntTot` is even, as the argument documentation requires (`RCrectSec.py:50`), each skin layer gets `numBarsIntTot/2` bars, a whole number. The two layers together carry exactly `numBarsIntTot` bars of area `barAreaInt`. |
| RCRectSecProperties.MirrorSymmetries | RCrectSec.py:79-88 | The −z cover strip (line 80) is the z ↦ −z mirror of the +z strip (line 79), with the same mesh; its corners are listed from the third one. The +y strip (line 82) is exactly the y ↦ −y mirror of the −y strip (line 81). The core and the remaining strips are each their own mirror image. The −z skin layer is the z-mirror of the +z skin layer. The bottom layer's endpoints are the y-mirrors of the top layer's. Mirror-image strips have equal signed areas. |
| RCRectSecProperties.ExampleSections | Example.py:78-79 | For the column (D=0.4, B=0.3, cover 0.04), the bounds are coverY=0.2, coverZ=0.15, coreY=0.16, coreZ=0.11. For the beam (D=0.6), they are 0.3, 0.15, 0.26, 0.11. Both sections are valid, and four intermediate bars give two bars per skin layer. |

## Left out

- OpenSees behind `section`, `patch` and `layer`: fiber discretisation and section integration are foreign code. The model keeps only the descriptors passed to these calls. It does not keep the literal tags `'Fiber'`, `'-GJ'`, `'quad'` and `'straight'`, which are the same in every call.
- `opsv.plot_fiber_section` (`RCrectSec.py:99`) is rendering. The model stops at the plot list and colours handed to it.
- The two module-level globals `fib_sec` and `matcolor` (`RCrectSec.py:91`) are returned as part of the result instead of being shared mutable state.
- `Example.py` beyond its two calls: the `wipe` and `model` setup, the Concrete02 and Steel02 material registrations, and the bar area computed from numpy's `pi`. The two sample sections keep the bar area as a parameter.
- IEEE-754 rounding: lengths are exact reals. Identities such as `0.4/2 − 0.04 = 0.16` hold in the model but need not hold bit-for-bit in Python floats.
- An odd `numBarsIntTot`: the source does not say what should happen. The model only records that each skin layer then gets a fractional bar count; it claims no correct result.
- Invalid geometry (a cover that is not positive, or is at least half the dimension): the routine checks nothing, and neither does the model. The signed-area sum still holds, but orientation and tiling are claimed only for valid geometry.
- Bars at the corners: the skin layers start and end at the four core corners, where the top and bottom layers also end. The header diagram (`RCrectSec.py:12-19`) draws the intermediate bars only between the top and bottom rows. Whether the library puts a bar at each end point of a layer, and so two bars at each corner, is library behaviour and is not modelled.
