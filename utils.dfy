/** The helpers of src/utils.c: angle and unit conversion, interpolation,
    digit counting, extension test, right-stripping of a C string, and the
    row-major flattening `sub2ind` that the mesh layout is built on. */
module Utils {
  import opened Types

  function ToRadians(degrees: real): real
  {
    degrees * PI_OVER_180
  }

  function Abs(x: real): real
  {
    if x < 0.0 then -x else x
  }

  // ---------------------------------------------------------------------
  // interp

  /** Linear interpolation through `p0` and `p2`, evaluated at `x`. */
  function Interp(p0: Vec2, p2: Vec2, x: real): real
    requires p0.x != p2.x
  {
    p0.y + (p2.y - p0.y) * (x - p0.x) / (p2.x - p0.x)
  }

  /** The interpolant passes through both of its defining points. */
  lemma InterpHitsEndpoints(p0: Vec2, p2: Vec2)
    requires p0.x != p2.x
    ensures Interp(p0, p2, p0.x) == p0.y
    ensures Interp(p0, p2, p2.x) == p2.y
  {
  }

  /** Between its two abscissae the interpolant stays between the two
      ordinates. */
  lemma InterpBetween(p0: Vec2, p2: Vec2, x: real)
    requires p0.x < p2.x
    requires p0.x <= x <= p2.x
    ensures p0.y <= p2.y ==> p0.y <= Interp(p0, p2, x) <= p2.y
    ensures p2.y <= p0.y ==> p2.y <= Interp(p0, p2, x) <= p0.y
  {
    var u, w, d := x - p0.x, p2.x - p0.x, p2.y - p0.y;
    var f := u / w;
    FractionInUnit(u, w);
    assert d * u == (d * f) * w by {
      assert f * w == u;
    }
    Cancel(d * u, w, d * f);
    MulSign(f, d);
    MulSign(1.0 - f, d);
    assert d * (1.0 - f) == d - d * f;
  }

  /** Real division undoes multiplication. */
  lemma Cancel(n: real, q: real, m: real)
    requires q != 0.0 && n == m * q
    ensures n / q == m
  {
  }

  /** The sign of a product with a non-negative factor. */
  lemma MulSign(a: real, b: real)
    requires a >= 0.0
    ensures b >= 0.0 ==> b * a >= 0.0
    ensures b <= 0.0 ==> b * a <= 0.0
  {
  }

  /** A product with a positive factor keeps the other factor's strict sign. */
  lemma MulStrictSign(a: real, b: real)
    requires a > 0.0
    ensures b > 0.0 ==> a * b > 0.0
    ensures b < 0.0 ==> a * b < 0.0
  {
  }

  /** Dividing a part of a positive whole by the whole gives a fraction in [0, 1]. */
  lemma FractionInUnit(u: real, w: real)
    requires w > 0.0 && 0.0 <= u <= w
    ensures 0.0 <= u / w <= 1.0
    ensures (u / w) * w == u
  {
    var f := u / w;
    assert f * w == u;
    MulStrictSign(w, f);
    MulStrictSign(w, f - 1.0);
    assert w * (f - 1.0) == u - w;
  }

  // ---------------------------------------------------------------------
  // num_digits_in

  function Pow10(n: nat): (r: int)
    ensures r >= 1
  {
    if n == 0 then 1 else 10 * Pow10(n - 1)
  }

  function AbsInt(x: int): nat
  {
    if x < 0 then -x else x
  }

  lemma DivTenStep(v: int, a: nat, n: nat)
    requires v >= 1
    requires Pow10(n) * v <= a < Pow10(n) * (v + 1)
    ensures Pow10(n + 1) * (v / 10) <= a < Pow10(n + 1) * (v / 10 + 1)
    ensures Pow10(n) <= a
  {
    var p, q, r := Pow10(n), v / 10, v % 10;
    assert Pow10(n + 1) == 10 * p;
    assert v == 10 * q + r && 0 <= r < 10;
    MulMono(p, 10 * q, v);
    MulMono(p, v + 1, 10 * q + 10);
    MulMono(p, 1, v);
    assert p * (10 * q) == (10 * p) * q;
    assert p * (10 * q + 10) == (10 * p) * (q + 1);
  }

  lemma MulMono(p: int, x: int, y: int)
    requires p >= 0 && x <= y
    ensures p * x <= p * y
  {
    assert p * y - p * x == p * (y - x);
  }

  /** The number of decimal digits of `value`, counting 0 as one digit. The
      source negates a negative value first, which is undefined for INT_MIN,
      so that value is excluded. */
  method NumDigitsIn(value: int) returns (numDigits: int)
    requires INT_MIN < value <= INT_MAX
    ensures value == 0 ==> numDigits == 1
    ensures value != 0 ==> numDigits >= 1 && Pow10(numDigits - 1) <= AbsInt(value) < Pow10(numDigits)
  {
    if value == 0 {
      return 1;
    }
    var v := value;
    if v < 0 {
      v := -v;
    }
    numDigits := 0;
    ghost var a: nat := AbsInt(value);
    while v > 0
      invariant 0 <= v && numDigits >= 0
      invariant Pow10(numDigits) * v <= a < Pow10(numDigits) * (v + 1)
      invariant numDigits > 0 ==> Pow10(numDigits - 1) <= a
      invariant numDigits == 0 ==> v == a
      decreases v
    {
      DivTenStep(v, a, numDigits);
      v := v / 10;
      numDigits := numDigits + 1;
    }
  }

  // ---------------------------------------------------------------------
  // has_ext

  /** `needle` occurs in `hay` starting at position `p`. */
  predicate OccursAt(hay: string, needle: string, p: nat)
  {
    p + |needle| <= |hay| && hay[p..p + |needle|] == needle
  }

  /** The position `strstr` finds: the first occurrence of `needle` in `hay`
      at or after `from`. */
  function FindFrom(hay: string, needle: string, from: nat): (r: Option<nat>)
    requires from <= |hay|
    ensures r.Some? ==> from <= r.value && OccursAt(hay, needle, r.value)
    ensures r.Some? ==> forall q :: from <= q < r.value ==> !OccursAt(hay, needle, q)
    ensures r.None? ==> forall q :: from <= q <= |hay| ==> !OccursAt(hay, needle, q)
    decreases |hay| - from
  {
    if OccursAt(hay, needle, from) then Some(from)
    else if from == |hay| then None
    else FindFrom(hay, needle, from + 1)
  }

  function StrStr(hay: string, needle: string): Option<nat>
  {
    FindFrom(hay, needle, 0)
  }

  /** `has_ext` as written: the extension counts only when the FIRST
      occurrence of `ext` in `arg` is the one at its end. */
  function HasExt(arg: string, ext: string): bool
  {
    match StrStr(arg, ext)
    case None => false
    case Some(p) => p == |arg| - |ext|
  }

  predicate EndsWith(s: string, suffix: string)
  {
    |suffix| <= |s| && s[|s| - |suffix|..] == suffix
  }

  /** `has_ext` holds exactly when `arg` ends with `ext` and `ext` occurs
      nowhere earlier in `arg`. */
  lemma HasExtMeaning(arg: string, ext: string)
    ensures HasExt(arg, ext) <==>
            (EndsWith(arg, ext) && forall q :: 0 <= q < |arg| - |ext| ==> !OccursAt(arg, ext, q))
  {
    var r := StrStr(arg, ext);
    if EndsWith(arg, ext) {
      assert OccursAt(arg, ext, |arg| - |ext|);
    }
    if r.Some? && r.value == |arg| - |ext| {
      assert EndsWith(arg, ext);
    }
  }

  /** A name whose extension also occurs earlier is not recognised. */
  lemma HasExtMissesRepeatedExtension()
    ensures !HasExt("a.dat.dat", ".dat")
  {
    assert OccursAt("a.dat.dat", ".dat", 1);
    HasExtMeaning("a.dat.dat", ".dat");
  }

  /** The evidently intended extension test: `arg` ends with `ext`. */
  function HasExtSuffix(arg: string, ext: string): bool
  {
    EndsWith(arg, ext)
  }

  /** Appending an extension to any stem yields a name that has it. */
  lemma HasExtSuffixOfAppend(stem: string, ext: string)
    ensures HasExtSuffix(stem + ext, ext)
  {
    assert (stem + ext)[|stem|..] == ext;
  }

  // ---------------------------------------------------------------------
  // rstrip

  /** `isspace` in the C locale. */
  predicate IsSpace(c: char)
  {
    c == ' ' || c == '\t' || c == '\n' || c == '\r' || c == 12 as char || c == 11 as char
  }

  /** The C string held by a buffer: everything before its first NUL. */
  function StrLen(s: seq<char>): (n: nat)
    requires '\0' in s
    ensures n < |s| && s[n] == '\0' && '\0' !in s[..n]
  {
    if s[0] == '\0' then 0 else
      assert s == [s[0]] + s[1..];
      1 + StrLen(s[1..])
  }

  /** The string with its maximal run of trailing white space removed. */
  function TrimEnd(s: seq<char>): (r: seq<char>)
    ensures |r| <= |s| && r == s[..|r|]
  {
    if |s| > 0 && IsSpace(s[|s| - 1]) then TrimEnd(s[..|s| - 1]) else s
  }

  /** TrimEnd removes exactly a maximal trailing white-space run: what it
      removes is white space, and what it keeps is empty or does not end in
      white space. */
  lemma {:induction false} TrimEndRemovesTrailingSpace(s: seq<char>)
    ensures forall k :: |TrimEnd(s)| <= k < |s| ==> IsSpace(s[k])
    ensures |TrimEnd(s)| == 0 || !IsSpace(TrimEnd(s)[|TrimEnd(s)| - 1])
  {
    if |s| > 0 && IsSpace(s[|s| - 1]) {
      TrimEndRemovesTrailingSpace(s[..|s| - 1]);
    }
  }

  /** Stripping twice is stripping once. */
  lemma {:induction false} TrimEndIdempotent(s: seq<char>)
    ensures TrimEnd(TrimEnd(s)) == TrimEnd(s)
  {
    TrimEndRemovesTrailingSpace(s);
  }

  function Nuls(n: nat): (r: seq<char>)
    ensures |r| == n && forall k :: 0 <= k < n ==> r[k] == '\0'
  {
    seq(n, _ => '\0')
  }

  /** The buffer `rstrip` leaves behind: the stripped string, NULs over the
      white space it removed, and everything from the old terminator on as it
      was. */
  function RStripped(buf: seq<char>): (r: seq<char>)
    requires '\0' in buf
    ensures |r| == |buf|
  {
    var n := StrLen(buf);
    var t := TrimEnd(buf[..n]);
    t + Nuls(n - |t|) + buf[n..]
  }

  /** After `rstrip` the buffer holds, as a C string, exactly the old string
      with its trailing white space removed. */
  lemma RStrippedString(buf: seq<char>)
    requires '\0' in buf
    ensures '\0' in RStripped(buf)
    ensures RStripped(buf)[..StrLen(RStripped(buf))] == TrimEnd(buf[..StrLen(buf)])
  {
    var n := StrLen(buf);
    var t := TrimEnd(buf[..n]);
    assert '\0' !in t by {
      assert t == buf[..n][..|t|];
    }
    StrLenOfPadded(t, n - |t|, buf[n..]);
    assert RStripped(buf)[..|t|] == t;
  }

  /** `rstrip`: overwrite the trailing white space of the C string in `line`
      with NULs, in place. */
  method RStrip(line: array<char>)
    requires '\0' in line[..]
    modifies line
    ensures line[..] == RStripped(old(line[..]))
  {
    ghost var s0 := line[..];
    var length := StrLen(line[..]);
    ghost var n0 := length;
    ghost var t := TrimEnd(s0[..n0]);
    while length > 0 && IsSpace(line[length - 1])
      invariant |t| <= length <= n0
      invariant TrimEnd(s0[..length]) == t
      invariant forall q :: 0 <= q < length ==> line[q] == s0[q]
      invariant forall q :: length <= q < n0 ==> line[q] == '\0'
      invariant forall q :: n0 <= q < line.Length ==> line[q] == s0[q]
      decreases length
    {
      assert s0[..length][..length - 1] == s0[..length - 1];
      line[length - 1] := '\0';
      length := length - 1;
    }
    assert s0[..length] == t by {
      assert !(length > 0 && IsSpace(s0[..length][length - 1]));
    }
    assert line[..] == t + Nuls(n0 - length) + s0[n0..];
  }

  /** The length of a C string is the position of its first NUL. */
  lemma StrLenAt(s: seq<char>, n: nat)
    requires n < |s| && s[n] == '\0' && '\0' !in s[..n]
    ensures StrLen(s) == n
  {
  }

  lemma StrLenOfPadded(t: seq<char>, k: nat, rest: seq<char>)
    requires '\0' !in t
    requires k > 0 || (|rest| > 0 && rest[0] == '\0')
    ensures '\0' in t + Nuls(k) + rest
    ensures StrLen(t + Nuls(k) + rest) == |t|
  {
    var s := t + Nuls(k) + rest;
    assert s[|t|] == '\0';
    assert s[..|t|] == t;
    StrLenAt(s, |t|);
  }

  // ---------------------------------------------------------------------
  // nearly_equal, to_units, to_meters

  predicate NearlyEqual(a: real, b: real)
  {
    Abs(a - b) < METERS_PER_MICROMETER
  }

  lemma NearlyEqualSymmetric(a: real, b: real)
    ensures NearlyEqual(a, b) == NearlyEqual(b, a)
  {
  }

  /** The unit names `to_units` recognises. */
  function ToUnits(str: string): (u: Units)
    ensures u != UnknownUnits <==> str in {"m", "cm", "mm", "ft", "in"}
    ensures u != Invalid
  {
    if str == "m" then Meters
    else if str == "cm" then Centimeters
    else if str == "mm" then Millimeters
    else if str == "ft" then Feet
    else if str == "in" then Inches
    else UnknownUnits
  }

  /** The name of each unit `to_units` decodes. */
  function UnitName(u: Units): string
  {
    match u
    case Meters => "m"
    case Centimeters => "cm"
    case Millimeters => "mm"
    case Feet => "ft"
    case Inches => "in"
    case _ => ""
  }

  /** Decoding the name of a unit gives that unit back. */
  lemma ToUnitsRoundTrip(u: Units)
    requires u != Invalid && u != UnknownUnits
    ensures ToUnits(UnitName(u)) == u
  {
  }

  /** `to_meters`: a length in `units` expressed in metres. The unknown and
      invalid units leave the value as it is (the source prints a warning). */
  function ToMeters(value: real, units: Units): real
  {
    match units
    case Feet => value / FEET_PER_METER
    case Inches => value / INCHES_PER_METER
    case Meters => value
    case Centimeters => value / 100.0
    case Millimeters => value / 1000.0
    case UnknownUnits => value
    case Invalid => value
  }

  /** A length given in a unit converts back to the same number of metres from
      which it was made, for every linear unit. */
  lemma ToMetersInverts(meters: real)
    ensures ToMeters(meters, Meters) == meters
    ensures ToMeters(100.0 * meters, Centimeters) == meters
    ensures ToMeters(1000.0 * meters, Millimeters) == meters
    ensures ToMeters(FEET_PER_METER * meters, Feet) == meters
    ensures ToMeters(INCHES_PER_METER * meters, Inches) == meters
  {
  }

  /** Zero is zero in every unit. */
  lemma ToMetersZero(units: Units)
    ensures ToMeters(0.0, units) == 0.0
  {
  }

  // ---------------------------------------------------------------------
  // sub2ind

  /** Row-major flattening of cell (i, j) of a grid with `numCols` columns. */
  function Sub2Ind(i: int, j: int, numCols: int): int
  {
    i * numCols + j
  }

  /** Division recovers the row and column of a flattened index. */
  lemma Sub2IndDivMod(i: int, j: int, numCols: int)
    requires numCols > 0 && 0 <= j < numCols
    ensures Sub2Ind(i, j, numCols) / numCols == i
    ensures Sub2Ind(i, j, numCols) % numCols == j
  {
    DivModUnique(Sub2Ind(i, j, numCols), numCols, i, j);
  }

  lemma MulAtLeast(d: int, n: int)
    requires d >= 1 && n > 0
    ensures d * n >= n
  {
  }

  /** Euclidean division is determined by quotient and remainder. */
  lemma DivModUnique(a: int, n: int, q: int, r: int)
    requires n > 0 && 0 <= r < n && a == q * n + r
    ensures a / n == q && a % n == r
  {
    var q', r' := a / n, a % n;
    assert a == q' * n + r' && 0 <= r' < n;
    assert (q - q') * n == r' - r;
    if q > q' {
      MulAtLeast(q - q', n);
    } else if q < q' {
      MulAtLeast(q' - q, n);
    }
  }

  /** Flattening is injective on cells whose column is in range. */
  lemma Sub2IndInjective(i1: int, j1: int, i2: int, j2: int, numCols: int)
    requires numCols > 0 && 0 <= j1 < numCols && 0 <= j2 < numCols
    requires Sub2Ind(i1, j1, numCols) == Sub2Ind(i2, j2, numCols)
    ensures i1 == i2 && j1 == j2
  {
    Sub2IndDivMod(i1, j1, numCols);
    Sub2IndDivMod(i2, j2, numCols);
  }

  /** A cell of an R-by-C grid flattens into [0, R*C). */
  lemma Sub2IndBounds(i: int, j: int, numRows: int, numCols: int)
    requires 0 <= i < numRows && 0 <= j < numCols
    ensures 0 <= Sub2Ind(i, j, numCols) < numRows * numCols
  {
    assert i * numCols <= (numRows - 1) * numCols by {
      assert (numRows - 1 - i) * numCols >= 0;
    }
  }
}
