# wingstl in Dafny

A verified model of the core of wingstl, a tool that meshes a straight-tapered,
swept wing with a NACA four-digit section (or a digitized `.dat` section) into
a triangulated STL surface. The model covers:

- **Engine** (`src/engine.c`): the NACA 4-digit camber, gradient and thickness
  equations over `real` (sine, cosine, square root and tangent are abstract
  functions carried in a `Trig` value); the vertex and triangle counts; the
  vertex layout of `make_pts` (an upper block of R·S slots, then a lower block
  that shares the leading-edge row and, for a closed trailing edge, the
  trailing-edge row); the two index maps; the three triangle-stitching phases
  `fill_upper_lower_indices`, `fill_port_star_indices` and `fill_aft_indices`
  with their running cursor `k`; `make_indices`; the planform area, aspect
  ratio and tip-overlap diagnostics. `make_pts` and the `fill_*` functions are
  methods over Dafny arrays, each proved against a specification function
  (`GridVertex` per slot owner, `UpperLowerIndices`, `PortStarIndices`,
  `AftIndices`, `MeshIndices`). Triangles are first described by the grid
  references of their corners (`Up(i, j)`, `Lo(i, j)`), which is what the
  winding and mirror lemmas talk about, and then resolved to buffer slots.
- **Snapshot** (`wingstl.c`): the older single-file version. Its
  `compute_camber`/`compute_gradient`/`compute_thickness`, `sub2ind`, counts,
  index maps and `fill_*_indices` are the same expressions as in
  `src/engine.c`, so the Engine members model them; the Snapshot module adds
  the compile-time default wing and the snapshot's vertex formula (no unit
  conversion, local chord through a tangent difference) and proves it equal
  to the engine's in metres.
- **FileIO** (`src/fileio.c` `read_dat`): a class `Airfoil` holding the point
  array and counters, a reader method looping over pre-classified lines
  (`Blank | Pair(x, y) | Bad`), proved equal to a state-machine function
  `Run`, and lemmas about the point-count declaration, the single
  Lednicer break, the capacity limit and the trailing-edge closure test.
- **Utils** (`src/utils.c`): `rstrip` (in place, over a NUL-terminated char
  array), `num_digits_in` (its loop), `has_ext`, `sub2ind`, `to_units`,
  `to_meters`, `interp`, `nearly_equal`.
- **Parsing** (`src/parsing.c`): the command-line value decoders, the
  four-digit NACA code decoder (its character loop as a method) and the flag
  loop `handle_inputs` (a method proved against a recursive function), with a
  grammar `Accepts` of the argument lists it takes.
- **Validation** (`src/validation.c`): the ordered rejection chain
  `validate_props`.

Behaviour of the code worth noting:
- with S = 2 and R = 20 a closed trailing edge gives 76 vertices and 148
  triangles, the open one 78 and 152 (`Snapshot.DefaultCounts`);
- the Lednicer index is set only by a blank line before a point when at
  least two points are already stored (`FileIO.LednicerBreakIsMarked`), not
  by a blank line before the first point;
- `tip_overlap` compares sweep complements in radians without a tangent
  (`Engine.TipOverlapMeaning`).

`include/types.h` declares no `UNKNOWN_UNITS`, although `src/utils.c` returns
it; the model's `Units` has both `Invalid` and `UnknownUnits`.

## Model

| member | source | states |
|---|---|---|
| Utils.InterpHitsEndpoints | src/utils.c:22-24 | the interpolant takes the value p0.y at p0.x and p2.y at p2.x |
| Utils.InterpBetween | src/utils.c:22-24 | for x between the two abscissae the interpolated value lies between the two ordinates |
| Utils.NumDigitsIn | src/utils.c:26-43 | returns 1 for 0, otherwise the n with 10^(n-1) <= abs(value) < 10^n, i.e. the decimal digit count |
| Utils.FindFrom | src/utils.c:45-51 | the `strstr` search: a found position is an occurrence with none before it; no result means no occurrence at all |
| Utils.HasExtMeaning | src/utils.c:45-51 | `has_ext` holds exactly when the name ends with the extension and the extension occurs nowhere earlier |
| Utils.HasExtMissesRepeatedExtension | src/utils.c:45-51 | "a.dat.dat" is not recognised as having ".dat" |
| Utils.HasExtSuffixOfAppend | src/utils.c:45-51 | the corrected test accepts every stem followed by the extension |
| Utils.StrLen | src/utils.c:53-60 | `strlen`: the position of the first NUL, with no NUL before it |
| Utils.TrimEnd | src/utils.c:53-60 | the stripped string is a prefix of its input |
| Utils.TrimEndRemovesTrailingSpace | src/utils.c:53-60 | everything removed is whitespace, and the result does not end in whitespace (the maximal run is removed) |
| Utils.TrimEndIdempotent | src/utils.c:53-60 | stripping twice equals stripping once |
| Utils.RStrippedString | src/utils.c:53-60 | the buffer after `rstrip` still holds a NUL and the C string it holds is the trimmed original string |
| Utils.RStrip | src/utils.c:53-60 | the in-place loop leaves the array equal to the stripped buffer |
| Utils.StrLenOfPadded | src/utils.c:53-60 | a string followed by NULs has the string's length |
| Utils.NearlyEqualSymmetric | src/utils.c:62-64 | `nearly_equal` is symmetric |
| Utils.ToUnits | src/utils.c:66-80 | a unit other than unknown comes exactly from "m", "cm", "mm", "ft", "in"; never Invalid |
| Utils.ToUnitsRoundTrip | src/utils.c:66-80 | the name of every linear unit decodes back to that unit |
| Utils.ToMetersInverts | src/utils.c:82-101 | identity for metres; dividing by 100, 1000, feet and inches per metre undoes the matching scaling |
| Utils.ToMetersZero | src/utils.c:82-101 | zero converts to zero in every unit |
| Utils.Sub2IndDivMod | src/utils.c:103-105 | for 0 <= j < n, i·n + j divided by n is i with remainder j |
| Utils.Sub2IndInjective | src/utils.c:103-105 | distinct cells inside the column range get distinct indices |
| Utils.Sub2IndBounds | src/utils.c:103-105 | a cell of a numRows by numCols grid maps into [0, numRows·numCols) |
| Engine.CamberPeakAtDigit | src/engine.c:16-38 | for every p = d/10 both camber branches equal m at x = p and the gradient is 0 there; for p = 0 the aft branch is used for every x |
| Engine.ThicknessAtEdges | src/engine.c:40-46 | thickness is 0 at the leading edge; at x = 1 it is 0 when closed and 0.0105·t when open, so for t != 0 it vanishes iff closed |
| Engine.SurfacesStraddleCamber | src/engine.c:48-58 | the upper and lower surface points have the camber point as midpoint and are 2·thickness·cos(theta) apart vertically |
| Engine.NumPtsBlocks | src/engine.c:60-62 | the vertex count is R·S plus a lower block of S·(R − c − 1), at least R·S |
| Engine.SlotOfGridPoint | src/engine.c:103-139 | every grid point owns a slot in [0, get_num_pts) and is that slot's owner |
| Engine.UpperSlot | src/engine.c:116-120 | the upper point (i, j) sits at i·S + j below R·S |
| Engine.LowerSlot | src/engine.c:116-120 | the lower point (i, j) sits at R·S + (i−1)·S + j, inside the lower block |
| Engine.OwnerOfSlot | src/engine.c:103-139 | every slot of the buffer is owned by exactly one grid point, so `make_pts` writes each slot once |
| Engine.MakePts | src/engine.c:72-142 | returns a fresh buffer of get_num_pts vertices whose every slot holds the vertex of its owning grid point |
| Engine.ResolveIsPtsSlot | src/engine.c:144-157 | both index maps give the slot `make_pts` wrote; the lower map returns the upper slot exactly at i = 0 and, when closed, at i = R−1 |
| Engine.ResolvedVertex | src/engine.c:144-157 | an index-mapped slot holds the vertex of the referenced grid point |
| Engine.SurfaceCellWinding | src/engine.c:177-182 | the two triangles of an upper cell turn anticlockwise in the planform, those of a lower cell clockwise |
| Engine.WallRowWinding | src/engine.c:201-240 | port wall triangles turn one way in the section plane, starboard ones the other |
| Engine.AftCellWinding | src/engine.c:247-266 | the aft cap triangles are consistently wound in the span plane |
| Engine.SurfaceQuadsMirror | src/engine.c:165-175 | the lower quad's corner cycle is the upper one's reversed |
| Engine.WallRowsMirror | src/engine.c:201-240 | the starboard quad cycle is the port one reversed, and a collapsed starboard triangle is the port one with its last two corners swapped |
| Engine.UpperLowerLength | src/engine.c:159-188 | the surface phase produces 12·(R−1)·(S−1) indices |
| Engine.PortStarLength | src/engine.c:190-245 | the wall phase produces 6·(2R − c − 3) indices |
| Engine.MeshIndexCount | src/engine.c:268-288 | the mesh has exactly 3·get_num_tris indices, the count `make_indices` asserts |
| Engine.PhaseSizes | src/engine.c:64-70 | the triangle count is the sum of the three phases, the aft cap only when open |
| Engine.NumTrisBreakdown | src/engine.c:64-70 | 3·get_num_tris = 12(R−1)(S−1) + 6(2R − c − 3) + (1 − c)·6(S − 1) |
| Engine.ClosedTwoRowWallMismatch | src/engine.c:64-70 | with R = 2 and a closed edge the wall phase still emits 6 indices while the formula counts 0 |
| Engine.MeshIndicesBelow | src/engine.c:159-288 | every index emitted lies below get_num_pts |
| Engine.Emit | src/engine.c:177-182 | writes the given indices at the cursor and leaves every other cell unchanged |
| Engine.FillUpperLowerIndices | src/engine.c:159-188 | advances k by 12·(R−1)·(S−1), writes the surface triangles in order into [k, kOut) and leaves the rest of the buffer unchanged |
| Engine.FillPortStarIndices | src/engine.c:190-245 | advances k by 6·(2R − c − 3), writes the wall triangles into [k, kOut) only |
| Engine.FillAftIndices | src/engine.c:247-266 | advances k by 6·(S−1), writes the aft cap into [k, kOut) only |
| Engine.FillWall | src/engine.c:201-240 | one wall's rows, collapsed first and last rows included, are written in order into [k, kOut) only |
| Engine.FillSurface | src/engine.c:159-188 | one surface's cells are written in order into [k, kOut) only |
| Engine.MakeIndices | src/engine.c:268-288 | returns a fresh buffer of exactly 3·get_num_tris indices equal to the mesh's triangle list, the aft cap only when open |
| Engine.SurfaceAreaIsTrapezoids | src/engine.c:290-295 | the area is semi-span times the sum of root and tip chords |
| Engine.AspectRatio | src/engine.c:297-302 | 0 for an area at most FLT_EPSILON, otherwise a non-negative r with r·area = (2·semi-span)^2 |
| Engine.TipOverlapMeaning | src/engine.c:304-312 | the overlap test fires iff root chord <= semi-span·(sweepTe − sweepLe) in radians |
| Engine.ComputeTipOverlap | src/engine.c:304-312 | the loop over the two sweep angles computes the overlap test |
| Snapshot.DefaultCounts | wingstl.c:133-143 | the compile-time default wing gives 78 vertices and 152 triangles, and 76 and 148 with a closed edge |
| Snapshot.SnapshotVertexAgrees | wingstl.c:171-209 | the snapshot's vertex equals the engine's for a wing in metres |
| Snapshot.SnapshotPlaceAgrees | wingstl.c:186 | the local chord through the tangent difference equals the engine's chord |
| Snapshot.SnapshotMakePts | wingstl.c:145-215 | every slot of the snapshot's buffer holds the snapshot vertex of its owner |
| Snapshot.DefaultSectionSymmetric | wingstl.c:61-83 | the default section has zero camber and zero gradient everywhere |
| FileIO.Airfoil.constructor | src/fileio.c:43 | the caller's `Airfoil` record that `read_dat` fills: a point buffer of the given capacity, an empty title and zero counters |
| FileIO.Step | src/fileio.c:68-111 | one line keeps the counters well formed and the buffer size |
| FileIO.Run | src/fileio.c:68-111 | the whole loop keeps the counters well formed and the buffer size |
| FileIO.ReadLine | src/fileio.c:71-110 | one line updates the record exactly as the state-machine step does |
| FileIO.ReadBody | src/fileio.c:68-111 | the loop leaves buffer, count and Lednicer index as `Run` computes them and nothing else |
| FileIO.ReadDat | src/fileio.c:43-141 | the reader's error and new record are those of `ReadDatSpec` (the corrected reader for a file without points); the array object is kept |
| FileIO.RunStoresInOrder | src/fileio.c:77-99 | stored points are the file's pairs in order, a leading count declaration dropped; a second declaration or a large second point is never accepted |
| FileIO.RunKeepsTail | src/fileio.c:86-99 | the count never falls and slots beyond it are untouched |
| FileIO.RunErrors | src/fileio.c:100-108 | the loop ends with no error, a format error or a size error, the last only with the buffer full |
| FileIO.RunRejectsBadLines | src/fileio.c:105-108 | a malformed line always ends the read with an error |
| FileIO.RunWithoutBlanksIsSelig | src/fileio.c:90-96 | without blank lines the Lednicer index stays 0 |
| FileIO.RunOverBlanks | src/fileio.c:71-74 | a run of blank lines only sets the last-line-empty flag |
| FileIO.LednicerBreakIsMarked | src/fileio.c:86-99 | blanks followed by a point with two or more stored set the index to that point's slot |
| FileIO.SecondBreakFails | src/fileio.c:90-93 | a second break gives a format error |
| FileIO.ReadDatErrors | src/fileio.c:43-126 | read error iff no file; empty error iff no header or, by the correction in "## Findings", no points; never write or unknown errors; size error only when full |
| FileIO.ReadDatStoresPoints | src/fileio.c:61-111 | on success: a header, no bad line, 1 <= count <= capacity (the lower bound from the correction), the stored points, the title trimmed, and Lednicer index 0 or in [2, count) |
| FileIO.ReadDatSelig | src/fileio.c:90-96 | a successful read without blank lines is a Selig file |
| FileIO.ReadDatClosure | src/fileio.c:115-126 | on success the closure decision compares the upper and lower trailing-edge points in bounds: closed iff abs(dy) < tolerance or dx > tolerance |
| FileIO.ClosureSlotsAsWritten | src/fileio.c:115-126 | the source reads the lower trailing edge at num_pts − 1 |
| FileIO.BlankBodyReadsBeforeBuffer | src/fileio.c:68-126 | a header followed only by blank lines reaches the closure step with no points, so the source reads slot −1 |
| Parsing.HandleNonzeroPosNum | src/parsing.c:39-56 | −1 or the given value, positive exactly when a positive value follows the flag |
| Parsing.HandleUnits | src/parsing.c:58-86 | a unit exactly when a known unit name follows the flag, otherwise Invalid |
| Parsing.HandleUnitsOfName | src/parsing.c:58-86 | each of the five unit names decodes to its unit |
| Parsing.HandleChordPts | src/parsing.c:140-164 | −1, or the given value exactly when it lies in [20, 200] |
| Parsing.HandleSweep | src/parsing.c:166-198 | −1, or the given value exactly when it lies in [1, 179] |
| Parsing.DecodeDigitsMeaning | src/parsing.c:102-129 | the character loop fails on a non-digit and otherwise stores m = d0, p = d1, t = 10·d2 + d3 |
| Parsing.HandleAirfoilMeaning | src/parsing.c:88-138 | m < 0 iff the value is missing, not four characters or not all digits; otherwise 0 <= m, p <= 9 and 0 <= t <= 99 with the digits' values |
| Parsing.HandleAirfoil | src/parsing.c:88-138 | the loop computes the decoded code |
| Parsing.HandleArg | src/parsing.c:211-254 | a handled flag moves the cursor forward and stays within the arguments |
| Parsing.HandleFrom | src/parsing.c:206-257 | the status is 0 or 1; span points, edge closure, spacing and output are never changed |
| Parsing.HandleInputs | src/parsing.c:200-258 | the flag loop computes the status and patched wing and settings of `HandleInputsSpec` |
| Parsing.HandleArgAccepts | src/parsing.c:211-254 | one flag succeeds iff it is one of the nine flags, its value (if any) is present and decodes, and the cursor moves past exactly its arity |
| Parsing.HandleFromAccepts | src/parsing.c:206-257 | the loop succeeds iff the remaining arguments follow the grammar |
| Parsing.HandleInputsAccepts | src/parsing.c:200-258 | status 0 iff at least one argument follows the program name and all follow the grammar (no `-h`, no `-o`, no stray value) |
| Parsing.HandleArgPatchesOwnField | src/parsing.c:216-254 | each value flag writes only its own wing field and fails exactly when that field holds its failure marker (−1, or Invalid for units); `-v` only sets verbose; every other argument changes nothing |
| Parsing.HandleArgSetsValidFields | src/parsing.c:223-249 | after a successful argument every field a flag can set holds its old value or a valid decoded value |
| Parsing.HandleFromSetsValidFields | src/parsing.c:223-249 | after a successful loop every field a flag can set holds its old value or a valid decoded value |
| Validation.ValidateProps | src/validation.c:21-59 | returns 0 or 1 |
| Validation.ValidatePropsMeaning | src/validation.c:21-59 | 0 iff m >= 0, semi-span and root chord non-negative, t != 0, no tip overlap, and the aspect ratio in [1, 100] |
| Validation.ValidatedArea | src/validation.c:51-57 | an accepted wing has area above FLT_EPSILON and span^2 between area and 100·area |
| Validation.ZeroSpanRejected | src/validation.c:51-57 | a wing of zero semi-span is rejected |

## Left out

- `write_stl` in `src/fileio.c` and `wingstl.c`, `print_file_error`, and the
  normal computation (`cross`, `subtract`, `normalize` in `src/utils.c` and
  `wingstl.c`): file output and text formatting.
- `src/messages.c`, the `request_*` printers of `src/parsing.c` and the
  `suggest_*` printers of `src/validation.c`: console output only.
- `main` of `src/wingstl.c` and of `wingstl.c`: orchestration of the modelled
  functions; the default values used by `wingstl.c`'s `main` appear as
  `Snapshot.DefaultWing`.
- `fopen`, `fgets`, `sscanf`, `atof`, `atoi`: a file is given as an optional
  header and a sequence of already classified lines, and each argument comes
  with its `atof` and `atoi` values. Lines longer than the `fgets` buffer, the
  fixed-size title buffer and `strtok`-style truncation are not modelled.
- The `fclose` leak on the early format-error returns of `read_dat`, and the
  debug listing printed under `SHOW_DAT_FILE_CONTENTS`: resource release and
  output.
- `malloc` failure in `make_pts` and `make_indices`: Dafny allocation does
  not fail.
- `MAX_AIRFOIL_PTS` is not defined in any file of the model; the capacity is
  the length of the `Airfoil`'s point array.
- Floating point: every `float` is a `real`; rounding, overflow and NaN are
  not modelled (an `atof` NaN would pass every `< 0` check of
  `validate_props`). `sinf`, `cosf`, `sqrtf`, `tanf` and `powf` are abstract
  functions; `to_radians` is exact multiplication by the constant 0.01745.
- Engine.CamberPeakAtDigit: stated for the camber positions a four-digit code
  can express (p = d/10 with d a digit), not for every real p.
- Engine.SurfaceCellWinding, Engine.WallRowWinding, Engine.AftCellWinding:
  orientation is stated in the (i, j) parameter plane of the grid, not on the
  curved surface, since vertex coordinates go through abstract trigonometry.
- Engine.MakeIndices, Engine.NumTrisBreakdown: require S >= 2, R >= 2 and,
  for a closed edge, R >= 3 (guaranteed by the 20-point minimum); the
  closed R = 2 case is `Engine.ClosedTwoRowWallMismatch`.
- FileIO.ReadDat, FileIO.ReadDatErrors, FileIO.ReadDatStoresPoints: when a
  header is followed by no point at all these follow the correction in
  "## Findings" (an empty error, and so at least one point on success), not
  the code, which reads `pts[-1]` and reports no error; the code's behaviour
  is `FileIO.BlankBodyReadsBeforeBuffer`.
- `METERS_PER_MICROMETER` is used by `src/utils.c` and `src/fileio.c` but
  defined in no file of the model; its value 0.000001 is taken from its name.
- The `Airfoil` record type is defined in no file of the model; its fields
  are those `src/fileio.c` uses (`label`, `pts`, `num_pts`,
  `lednicer_index`, `has_closed_te`), with `label` named `title`.
- Utils.NumDigitsIn: requires value != INT_MIN, whose negation overflows.
- Parsing.HandleSweep: the flag name argument only selects the message text,
  so it is not a parameter.
- `Invalid` and `UnknownUnits` both convert as the identity in
  `Utils.ToMeters`; the warning printed for them is left out.

## Findings

| source | as written | input that shows it | evidently intended | confidence | as-written member | corrected member |
|---|---|---|---|---|---|---|
| src/utils.c:45-51 | `has_ext` compares only the first `strstr` hit with the end of the name | "a.dat.dat" with ".dat" gives false | true whenever the name ends with the extension | not executed | Utils.HasExtMissesRepeatedExtension | Utils.HasExtSuffixOfAppend |
| src/fileio.c:115-126 | the closure test reads `pts[num_pts - 1]` even when no point was read | a header line followed only by blank lines: num_pts is 0 and slot −1 is read | report an empty file when no point was read | not executed | FileIO.BlankBodyReadsBeforeBuffer | FileIO.ReadDatClosure |
