/** The command-line decoders of src/parsing.c: one decoder per value flag,
    and the flag loop `handle_inputs` that patches the wing and the settings.
    Arguments reach the model with their `atof` and `atoi` readings already
    computed; the messages the decoders print are outside it. */
module Parsing {
  import opened Types
  import opened Utils

  /** A command-line argument: its text and what `atof` and `atoi` make of it. */
  datatype Arg = Arg(text: string, asReal: real, asInt: int)

  /** The run-time settings the flag loop may change. */
  datatype Settings = Settings(verbose: bool, output: string)

  // ---------------------------------------------------------------------
  // Value decoders. Each reads the argument after the flag at `iarg`.

  /** `handle_nonzero_pos_num`: the value when it is present and positive,
      and -1 otherwise. */
  function HandleNonzeroPosNum(iarg: nat, args: seq<Arg>): (v: real)
    ensures v == -1.0 || v > 0.0
    ensures v > 0.0 <==> iarg + 1 < |args| && args[iarg + 1].asReal > 0.0
    ensures v > 0.0 ==> v == args[iarg + 1].asReal
  {
    if iarg + 1 < |args| then
      var value := args[iarg + 1].asReal;
      if value <= 0.0 then -1.0 else value
    else -1.0
  }

  /** `handle_units`: the unit a present value names, and Invalid for a
      missing or unknown name. */
  function HandleUnits(iarg: nat, args: seq<Arg>): (u: Units)
    ensures u != UnknownUnits
    ensures u != Invalid <==> iarg + 1 < |args| && ToUnits(args[iarg + 1].text) != UnknownUnits
    ensures u != Invalid ==> u == ToUnits(args[iarg + 1].text)
  {
    if iarg + 1 < |args| then
      var arg := args[iarg + 1].text;
      if arg == "m" then Meters
      else if arg == "cm" then Centimeters
      else if arg == "mm" then Millimeters
      else if arg == "ft" then Feet
      else if arg == "in" then Inches
      else Invalid
    else Invalid
  }

  /** The unit names the flag decoder accepts are those of `to_units`, and a
      unit's own name decodes to it. */
  lemma HandleUnitsOfName(iarg: nat, args: seq<Arg>, u: Units)
    requires u != Invalid && u != UnknownUnits
    requires iarg + 1 < |args| && args[iarg + 1].text == UnitName(u)
    ensures HandleUnits(iarg, args) == u
  {
    ToUnitsRoundTrip(u);
  }

  /** `handle_chord_pts`: the count when it is present and within
      [MIN_CHORD_PTS, MAX_CHORD_PTS], and -1 otherwise. */
  function HandleChordPts(iarg: nat, args: seq<Arg>): (n: int)
    ensures n == -1 || MIN_CHORD_PTS <= n <= MAX_CHORD_PTS
    ensures n != -1 <==> iarg + 1 < |args| && MIN_CHORD_PTS <= args[iarg + 1].asInt <= MAX_CHORD_PTS
    ensures n != -1 ==> n == args[iarg + 1].asInt
  {
    if iarg + 1 < |args| then
      var numPts := args[iarg + 1].asInt;
      if numPts < MIN_CHORD_PTS then -1
      else if numPts > MAX_CHORD_PTS then -1
      else numPts
    else -1
  }

  /** `handle_sweep`: the angle when it is present, positive and within
      [MIN_SWEEP, MAX_SWEEP], and -1 otherwise. */
  function HandleSweep(iarg: nat, args: seq<Arg>): (a: real)
    ensures a == -1.0 || MIN_SWEEP <= a <= MAX_SWEEP
    ensures a != -1.0 <==> iarg + 1 < |args| && MIN_SWEEP <= args[iarg + 1].asReal <= MAX_SWEEP
    ensures a != -1.0 ==> a == args[iarg + 1].asReal
  {
    if iarg + 1 < |args| then
      var sweep := args[iarg + 1].asReal;
      if sweep <= 0.0 then -1.0
      else if sweep < MIN_SWEEP then -1.0
      else if sweep > MAX_SWEEP then -1.0
      else sweep
    else -1.0
  }

  // ---------------------------------------------------------------------
  // The NACA code decoder

  /** `isdigit` in the C locale. */
  predicate IsDigit(c: char)
  {
    '0' <= c <= '9'
  }

  function DigitValue(c: char): int
  {
    c as int - '0' as int
  }

  /** What `handle_airfoil` starts from: m marks failure, and the other two
      fields are zero. */
  const NoAirfoil: NACA4Digit := NACA4Digit(-1, 0, 0)

  /** The effect of digit `d` at position `j` of the code. */
  function SetDigit(code: NACA4Digit, j: nat, d: int): NACA4Digit
  {
    if j == 0 then code.(m := d)
    else if j == 1 then code.(p := d)
    else if j == 2 then code.(t := d)
    else code.(t := 10 * code.t + d)
  }

  /** The character loop of `handle_airfoil` from position `j` on: each digit
      sets its field; the first non-digit marks the code as failed and stops. */
  function DecodeDigits(s: string, j: nat, code: NACA4Digit): NACA4Digit
    requires j <= |s|
    decreases |s| - j
  {
    if j == |s| then code
    else if !IsDigit(s[j]) then code.(m := -1)
    else DecodeDigits(s, j + 1, SetDigit(code, j, DigitValue(s[j])))
  }

  /** What `handle_airfoil` returns. */
  function HandleAirfoilSpec(iarg: nat, args: seq<Arg>): NACA4Digit
  {
    if iarg + 1 < |args| then
      var arg := args[iarg + 1].text;
      if |arg| != 4 then NoAirfoil else DecodeDigits(arg, 0, NoAirfoil)
    else NoAirfoil
  }

  predicate AllDigits(s: string)
  {
    forall k :: 0 <= k < |s| ==> IsDigit(s[k])
  }

  /** The loop over a string of digits sets every field it reaches; a
      non-digit anywhere fails the code. */
  lemma {:induction false} DecodeDigitsMeaning(s: string, j: nat, code: NACA4Digit)
    requires j <= |s| == 4
    ensures AllDigits(s[j..]) && j == 0 ==>
      DecodeDigits(s, j, code) == NACA4Digit(DigitValue(s[0]), DigitValue(s[1]), 10 * DigitValue(s[2]) + DigitValue(s[3]))
    ensures !AllDigits(s[j..]) ==> DecodeDigits(s, j, code).m == -1
    ensures AllDigits(s[j..]) && j == 1 ==>
      DecodeDigits(s, j, code) == NACA4Digit(code.m, DigitValue(s[1]), 10 * DigitValue(s[2]) + DigitValue(s[3]))
    ensures AllDigits(s[j..]) && j == 2 ==>
      DecodeDigits(s, j, code) == NACA4Digit(code.m, code.p, 10 * DigitValue(s[2]) + DigitValue(s[3]))
    ensures AllDigits(s[j..]) && j == 3 ==>
      DecodeDigits(s, j, code) == NACA4Digit(code.m, code.p, 10 * code.t + DigitValue(s[3]))
    ensures j == 4 ==> DecodeDigits(s, j, code) == code
    decreases 4 - j
  {
    if j < 4 {
      var rest := s[j + 1..];
      assert s[j..] == [s[j]] + rest;
      if IsDigit(s[j]) {
        DecodeDigitsMeaning(s, j + 1, SetDigit(code, j, DigitValue(s[j])));
        assert AllDigits(s[j..]) <==> AllDigits(rest);
      } else {
        assert !AllDigits(s[j..]);
      }
    }
  }

  /** `handle_airfoil` fails exactly when the value is missing, is not four
      characters long, or holds a non-digit; otherwise the code is the four
      digits: m and p one digit each, t the last two. */
  lemma HandleAirfoilMeaning(iarg: nat, args: seq<Arg>)
    ensures var code := HandleAirfoilSpec(iarg, args);
      (code.m < 0 <==> !(iarg + 1 < |args| && |args[iarg + 1].text| == 4 && AllDigits(args[iarg + 1].text))) &&
      (code.m >= 0 ==>
        var s := args[iarg + 1].text;
        code == NACA4Digit(DigitValue(s[0]), DigitValue(s[1]), 10 * DigitValue(s[2]) + DigitValue(s[3])) &&
        0 <= code.m <= 9 && 0 <= code.p <= 9 && 0 <= code.t <= 99)
  {
    if iarg + 1 < |args| && |args[iarg + 1].text| == 4 {
      var s := args[iarg + 1].text;
      DecodeDigitsMeaning(s, 0, NoAirfoil);
      assert s[0..] == s;
      if AllDigits(s) {
        assert IsDigit(s[0]) && IsDigit(s[1]) && IsDigit(s[2]) && IsDigit(s[3]);
      }
    }
  }

  /** `handle_airfoil`: decode the four-digit code after the flag at `iarg`. */
  method HandleAirfoil(iarg: nat, args: seq<Arg>) returns (airfoil: NACA4Digit)
    ensures airfoil == HandleAirfoilSpec(iarg, args)
  {
    airfoil := NoAirfoil;
    if iarg + 1 < |args| {
      var arg := args[iarg + 1].text;
      var numDigits := |arg|;
      if numDigits != 4 {
        airfoil := airfoil.(m := -1);
        return;
      }
      var j := 0;
      while j < numDigits
        invariant 0 <= j <= numDigits
        invariant DecodeDigits(arg, 0, NoAirfoil) == DecodeDigits(arg, j, airfoil)
      {
        var digit := arg[j];
        if !IsDigit(digit) {
          airfoil := airfoil.(m := -1);
          return;
        }
        // j is below four here, so the last branch is position 3.
        if j == 0 {
          airfoil := airfoil.(m := DigitValue(digit));
        } else if j == 1 {
          airfoil := airfoil.(p := DigitValue(digit));
        } else if j == 2 {
          airfoil := airfoil.(t := DigitValue(digit));
        } else {
          airfoil := airfoil.(t := 10 * airfoil.t + DigitValue(digit));
        }
        j := j + 1;
      }
    } else {
      airfoil := airfoil.(m := -1);
    }
  }

  // ---------------------------------------------------------------------
  // The flag loop

  /** The result of the flag loop: the status `handle_inputs` returns (0 to
      go on, 1 to stop), and the wing and settings as it leaves them. */
  datatype Outcome = Outcome(status: int, wing: Wing, settings: Settings)

  /** The effect of the argument at `i`: the status, where the loop goes on,
      and the patched wing and settings. */
  datatype Handled = Handled(status: int, next: int, wing: Wing, settings: Settings)

  /** One pass of the loop of `handle_inputs` on the argument at `i`. A value
      flag stores whatever its decoder returned, even a failure marker, before
      the loop stops on it. */
  function HandleArg(args: seq<Arg>, i: nat, wing: Wing, settings: Settings): (h: Handled)
    requires i < |args|
    ensures h.status == 0 ==> i < h.next <= |args|
  {
    var arg := args[i].text;
    if |arg| == 0 || arg[0] != '-' then Handled(1, i, wing, settings)
    else if arg == FLAG_VERBOSE then Handled(0, i + 1, wing, settings.(verbose := true))
    else if arg == FLAG_HELP then Handled(1, i, wing, settings)
    else if arg == FLAG_SEMI_SPAN then
      var w := wing.(semiSpan := HandleNonzeroPosNum(i, args));
      if w.semiSpan < 0.0 then Handled(1, i, w, settings) else Handled(0, i + 2, w, settings)
    else if arg == FLAG_ROOT_CHORD then
      var w := wing.(rootChord := HandleNonzeroPosNum(i, args));
      if w.rootChord < 0.0 then Handled(1, i, w, settings) else Handled(0, i + 2, w, settings)
    else if arg == FLAG_AIRFOIL then
      var w := wing.(airfoil := HandleAirfoilSpec(i, args));
      if w.airfoil.m < 0 then Handled(1, i, w, settings) else Handled(0, i + 2, w, settings)
    else if arg == FLAG_CHORD_PTS then
      var w := wing.(numPtsChord := HandleChordPts(i, args));
      if w.numPtsChord < 0 then Handled(1, i, w, settings) else Handled(0, i + 2, w, settings)
    else if arg == FLAG_SWEEP_LE then
      var w := wing.(sweepLe := HandleSweep(i, args));
      if w.sweepLe < 0.0 then Handled(1, i, w, settings) else Handled(0, i + 2, w, settings)
    else if arg == FLAG_SWEEP_TE then
      var w := wing.(sweepTe := HandleSweep(i, args));
      if w.sweepTe < 0.0 then Handled(1, i, w, settings) else Handled(0, i + 2, w, settings)
    else if arg == FLAG_UNITS then
      var w := wing.(units := HandleUnits(i, args));
      if w.units == Invalid then Handled(1, i, w, settings) else Handled(0, i + 2, w, settings)
    else Handled(1, i, wing, settings)
  }

  /** The loop of `handle_inputs` from argument `i` on. It returns 0 or 1 and
      never touches the span-point count, the trailing-edge and spacing
      switches, or the output name. */
  function HandleFrom(args: seq<Arg>, i: nat, wing: Wing, settings: Settings): (o: Outcome)
    ensures o.status == 0 || o.status == 1
    ensures o.wing.numPtsSpan == wing.numPtsSpan && o.wing.hasClosedTe == wing.hasClosedTe
    ensures o.wing.hasCosineSpacing == wing.hasCosineSpacing && o.settings.output == settings.output
    decreases |args| - i
  {
    if i >= |args| then Outcome(0, wing, settings)
    else
      var h := HandleArg(args, i, wing, settings);
      if h.status != 0 then Outcome(1, h.wing, h.settings)
      else HandleFrom(args, h.next, h.wing, h.settings)
  }

  /** What `handle_inputs` returns and leaves behind; `args[0]` is the
      program name. */
  function HandleInputsSpec(args: seq<Arg>, wing: Wing, settings: Settings): Outcome
  {
    if |args| == 1 then Outcome(1, wing, settings) else HandleFrom(args, 1, wing, settings)
  }

  /** `handle_inputs`: run the flag loop over the arguments. */
  method HandleInputs(args: seq<Arg>, wing0: Wing, settings0: Settings)
    returns (status: int, wing: Wing, settings: Settings)
    ensures Outcome(status, wing, settings) == HandleInputsSpec(args, wing0, settings0)
  {
    wing, settings := wing0, settings0;
    if |args| == 1 {
      return 1, wing, settings;
    }
    var i := 1;
    while i < |args|
      invariant 1 <= i
      invariant HandleInputsSpec(args, wing0, settings0) == HandleFrom(args, i, wing, settings)
      decreases |args| - i
    {
      var arg := args[i].text;
      if |arg| == 0 || arg[0] != '-' {
        return 1, wing, settings;
      }
      if arg == FLAG_VERBOSE {
        settings := settings.(verbose := true);
      } else if arg == FLAG_HELP {
        return 1, wing, settings;
      } else if arg == FLAG_SEMI_SPAN {
        wing := wing.(semiSpan := HandleNonzeroPosNum(i, args));
        if wing.semiSpan < 0.0 { return 1, wing, settings; } else { i := i + 1; }
      } else if arg == FLAG_ROOT_CHORD {
        wing := wing.(rootChord := HandleNonzeroPosNum(i, args));
        if wing.rootChord < 0.0 { return 1, wing, settings; } else { i := i + 1; }
      } else if arg == FLAG_AIRFOIL {
        var code := HandleAirfoil(i, args);
        wing := wing.(airfoil := code);
        if wing.airfoil.m < 0 { return 1, wing, settings; } else { i := i + 1; }
      } else if arg == FLAG_CHORD_PTS {
        wing := wing.(numPtsChord := HandleChordPts(i, args));
        if wing.numPtsChord < 0 { return 1, wing, settings; } else { i := i + 1; }
      } else if arg == FLAG_SWEEP_LE {
        wing := wing.(sweepLe := HandleSweep(i, args));
        if wing.sweepLe < 0.0 { return 1, wing, settings; } else { i := i + 1; }
      } else if arg == FLAG_SWEEP_TE {
        wing := wing.(sweepTe := HandleSweep(i, args));
        if wing.sweepTe < 0.0 { return 1, wing, settings; } else { i := i + 1; }
      } else if arg == FLAG_UNITS {
        wing := wing.(units := HandleUnits(i, args));
        if wing.units == Invalid { return 1, wing, settings; } else { i := i + 1; }
      } else {
        return 1, wing, settings;
      }
      i := i + 1;
    }
    status := 0;
  }

  // ---------------------------------------------------------------------
  // The command-line grammar the loop accepts

  /** How many values a flag takes: none for `-v`, one for the seven value
      flags, and -1 for every other argument, `-h` and `-o` included. */
  function Arity(flag: string): int
  {
    if flag == FLAG_VERBOSE then 0
    else if flag in {FLAG_SEMI_SPAN, FLAG_ROOT_CHORD, FLAG_AIRFOIL, FLAG_CHORD_PTS, FLAG_SWEEP_LE, FLAG_SWEEP_TE, FLAG_UNITS} then 1
    else -1
  }

  /** The values each value flag accepts, as documented: positive lengths, a
      four-digit code, a chordwise count in [20, 200], sweeps in [1, 179]
      degrees, and the five unit names. */
  predicate ValidValue(flag: string, value: Arg)
  {
    if flag == FLAG_SEMI_SPAN || flag == FLAG_ROOT_CHORD then value.asReal > 0.0
    else if flag == FLAG_AIRFOIL then |value.text| == 4 && AllDigits(value.text)
    else if flag == FLAG_CHORD_PTS then MIN_CHORD_PTS <= value.asInt <= MAX_CHORD_PTS
    else if flag == FLAG_SWEEP_LE || flag == FLAG_SWEEP_TE then MIN_SWEEP <= value.asReal <= MAX_SWEEP
    else if flag == FLAG_UNITS then value.text in {"m", "cm", "mm", "ft", "in"}
    else false
  }

  /** The arguments from `i` on form a well-formed command line: handled
      flags, each value flag followed by a valid value. */
  predicate Accepts(args: seq<Arg>, i: nat)
    decreases |args| - i
  {
    i >= |args| ||
    (Arity(args[i].text) == 0 && Accepts(args, i + 1)) ||
    (Arity(args[i].text) == 1 && i + 1 < |args| && ValidValue(args[i].text, args[i + 1]) && Accepts(args, i + 2))
  }

  /** One argument passes the loop exactly when it is a handled flag with,
      for a value flag, a valid value after it; the loop then moves past the
      flag and its value. */
  lemma HandleArgAccepts(args: seq<Arg>, i: nat, wing: Wing, settings: Settings)
    requires i < |args|
    ensures var h := HandleArg(args, i, wing, settings); var a := Arity(args[i].text);
      (h.status == 0 <==> a == 0 || (a == 1 && i + 1 < |args| && ValidValue(args[i].text, args[i + 1]))) &&
      (h.status == 0 ==> h.next == i + 1 + a)
  {
    var arg := args[i].text;
    if arg == FLAG_AIRFOIL {
      HandleAirfoilMeaning(i, args);
    } else if arg == FLAG_UNITS && i + 1 < |args| {
      assert ToUnits(args[i + 1].text) != UnknownUnits <==> args[i + 1].text in {"m", "cm", "mm", "ft", "in"};
    }
  }

  /** The loop succeeds from `i` exactly when the rest of the command line is
      well formed. */
  lemma {:induction false} HandleFromAccepts(args: seq<Arg>, i: nat, wing: Wing, settings: Settings)
    ensures HandleFrom(args, i, wing, settings).status == 0 <==> Accepts(args, i)
    decreases |args| - i
  {
    if i < |args| {
      var h := HandleArg(args, i, wing, settings);
      HandleArgAccepts(args, i, wing, settings);
      if h.status == 0 {
        HandleFromAccepts(args, h.next, h.wing, h.settings);
      }
    }
  }

  /** `handle_inputs` succeeds exactly when there is at least one argument
      after the program name and the arguments form a well-formed command
      line; so a bare program name, an argument without a hyphen, `-h`, `-o`
      and any invalid value all make it return 1. */
  lemma HandleInputsAccepts(args: seq<Arg>, wing: Wing, settings: Settings)
    requires |args| >= 1
    ensures HandleInputsSpec(args, wing, settings).status == 0 <==> |args| >= 2 && Accepts(args, 1)
  {
    HandleFromAccepts(args, 1, wing, settings);
  }

  /** Every field of `w` that a flag can set holds either its value in
      `wing` or a valid decoded value. */
  predicate ValidPatch(wing: Wing, w: Wing)
  {
    (w.semiSpan == wing.semiSpan || w.semiSpan > 0.0) &&
    (w.rootChord == wing.rootChord || w.rootChord > 0.0) &&
    (w.airfoil == wing.airfoil || (0 <= w.airfoil.m <= 9 && 0 <= w.airfoil.p <= 9 && 0 <= w.airfoil.t <= 99)) &&
    (w.numPtsChord == wing.numPtsChord || MIN_CHORD_PTS <= w.numPtsChord <= MAX_CHORD_PTS) &&
    (w.sweepLe == wing.sweepLe || MIN_SWEEP <= w.sweepLe <= MAX_SWEEP) &&
    (w.sweepTe == wing.sweepTe || MIN_SWEEP <= w.sweepTe <= MAX_SWEEP) &&
    (w.units == wing.units || (w.units != Invalid && w.units != UnknownUnits))
  }

  /** An argument that passes the loop leaves every field a flag can set
      either as it was or holding a valid decoded value. */
  lemma HandleArgSetsValidFields(args: seq<Arg>, i: nat, wing: Wing, settings: Settings)
    requires i < |args| && HandleArg(args, i, wing, settings).status == 0
    ensures ValidPatch(wing, HandleArg(args, i, wing, settings).wing)
  {
    if args[i].text == FLAG_AIRFOIL {
      HandleAirfoilMeaning(i, args);
    }
  }

  /** A value flag writes its own field of the wing and no other, and fails
      exactly when that field now holds its decoder's failure marker (-1, or
      Invalid for the units); `-v` only sets the verbose switch, and every
      other argument changes nothing. */
  lemma HandleArgPatchesOwnField(args: seq<Arg>, i: nat, wing: Wing, settings: Settings)
    requires i < |args|
    ensures var h := HandleArg(args, i, wing, settings); var f := args[i].text;
      && (f == FLAG_SEMI_SPAN ==>
            h.wing == wing.(semiSpan := h.wing.semiSpan) && (h.status == 1 <==> h.wing.semiSpan == -1.0))
      && (f == FLAG_ROOT_CHORD ==>
            h.wing == wing.(rootChord := h.wing.rootChord) && (h.status == 1 <==> h.wing.rootChord == -1.0))
      && (f == FLAG_AIRFOIL ==>
            h.wing == wing.(airfoil := h.wing.airfoil) && (h.status == 1 <==> h.wing.airfoil.m == -1))
      && (f == FLAG_CHORD_PTS ==>
            h.wing == wing.(numPtsChord := h.wing.numPtsChord) && (h.status == 1 <==> h.wing.numPtsChord == -1))
      && (f == FLAG_SWEEP_LE ==>
            h.wing == wing.(sweepLe := h.wing.sweepLe) && (h.status == 1 <==> h.wing.sweepLe == -1.0))
      && (f == FLAG_SWEEP_TE ==>
            h.wing == wing.(sweepTe := h.wing.sweepTe) && (h.status == 1 <==> h.wing.sweepTe == -1.0))
      && (f == FLAG_UNITS ==>
            h.wing == wing.(units := h.wing.units) && (h.status == 1 <==> h.wing.units == Invalid))
      && (Arity(f) != 1 ==> h.wing == wing)
      && (f == FLAG_VERBOSE ==> h.status == 0 && h.settings == settings.(verbose := true))
      && (f != FLAG_VERBOSE ==> h.settings == settings)
  {
    if args[i].text == FLAG_AIRFOIL {
      HandleAirfoilMeaning(i, args);
      if i + 1 < |args| && |args[i + 1].text| == 4 {
        DecodeDigitsMeaning(args[i + 1].text, 0, NoAirfoil);
      }
    }
  }

  /** After a successful loop every field a flag can set holds either its
      old value or a valid decoded one. */
  lemma {:induction false} HandleFromSetsValidFields(args: seq<Arg>, i: nat, wing: Wing, settings: Settings)
    requires HandleFrom(args, i, wing, settings).status == 0
    ensures ValidPatch(wing, HandleFrom(args, i, wing, settings).wing)
    decreases |args| - i
  {
    if i < |args| {
      var h := HandleArg(args, i, wing, settings);
      HandleArgSetsValidFields(args, i, wing, settings);
      HandleFromSetsValidFields(args, h.next, h.wing, h.settings);
    }
  }
}
