/** Shapes shared by every component of wingstl: the wing record, the NACA
    four-digit code, units, vectors, and the numeric constants of
    include/constants.h. Floating-point quantities are modelled as reals. */
module Types {

  datatype Option<+T> = None | Some(value: T)

  /** A point of a digitized airfoil (chord fraction, thickness fraction). */
  datatype Vec2 = Vec2(x: real, y: real)

  /** A mesh vertex. */
  datatype Vec3 = Vec3(x: real, y: real, z: real)

  /** The three numbers of a NACA four-digit code ("2412": m = 2, p = 4, t = 12).
      A field `m` below zero marks an airfoil that has not been given or did
      not decode. */
  datatype NACA4Digit = NACA4Digit(m: int, p: int, t: int)

  /** Length units. UnknownUnits is what the string decoder of the utilities
      returns for an unrecognised name; Invalid is what the command-line
      decoder returns. */
  datatype Units = Feet | Inches | Meters | Centimeters | Millimeters | Invalid | UnknownUnits

  /** The wing being meshed. `sweepLe` and `sweepTe` are the two entries of the
      source's `sweep_angles` array, in degrees. */
  datatype Wing = Wing(
    units: Units,
    airfoil: NACA4Digit,
    numPtsSpan: int,
    numPtsChord: int,
    semiSpan: real,
    rootChord: real,
    sweepLe: real,
    sweepTe: real,
    hasClosedTe: bool,
    hasCosineSpacing: bool)

  /** The transcendental functions of the C math library that the core calls
      (`sqrtf`/`powf(x, 0.5f)`, `sinf`, `cosf`, `tanf`). They are left
      uninterpreted: every property proved here holds whatever they compute,
      unless a lemma states an assumption about them explicitly. */
  datatype Trig = Trig(sqrt: real -> real, sin: real -> real, cos: real -> real, tan: real -> real)

  /** `(int) b` for a C boolean. */
  function BoolToInt(b: bool): (r: int)
    ensures r == 0 || r == 1
    ensures r == 1 <==> b
  {
    if b then 1 else 0
  }

  // NACA four-digit thickness coefficients.
  const A0: real := 0.2969
  const A1: real := -0.126
  const A2: real := -0.3516
  const A3: real := 0.2843
  const A4_OPEN: real := -0.1015
  const A4_CLOSED: real := -0.1036

  const PI: real := 3.14159
  const PI_OVER_180: real := 0.01745

  const MIN_SWEEP: real := 1.0
  const MAX_SWEEP: real := 179.0
  const MIN_CHORD_PTS: int := 20
  const MAX_CHORD_PTS: int := 200
  const MIN_ASPECT_RATIO: real := 1.0
  const MAX_ASPECT_RATIO: real := 100.0

  const FEET_PER_METER: real := 3.28084
  const INCHES_PER_METER: real := 39.3701

  /** `FLT_EPSILON` of <float.h>: 2^-23. */
  const FLT_EPSILON: real := 0.00000011920928955078125

  /** One micrometre in metres, the tolerance used for near-equality. */
  const METERS_PER_MICROMETER: real := 0.000001

  const INT_MIN: int := -0x8000_0000
  const INT_MAX: int := 0x7fff_ffff

  const FLAG_HELP: string := "-h"
  const FLAG_UNITS: string := "-u"
  const FLAG_OUTPUT: string := "-o"
  const FLAG_AIRFOIL: string := "-a"
  const FLAG_VERBOSE: string := "-v"
  const FLAG_SWEEP_LE: string := "-l"
  const FLAG_SWEEP_TE: string := "-t"
  const FLAG_CHORD_PTS: string := "-p"
  const FLAG_SEMI_SPAN: string := "-b"
  const FLAG_ROOT_CHORD: string := "-c"
}
