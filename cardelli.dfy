/**
 * The Cardelli, Clayton and Mathis (1989) extinction law as the
 * `RedLawCardelli.cardelli` routine computes it: wavelengths in microns
 * become wavenumbers x = 1/λ, the whole input is rejected when any
 * wavenumber lies outside [0.3, 8.0], the coefficient arrays a and b are
 * filled regime by regime, A(λ)/A(V) = a + b/Rv is normalised by its value
 * at the sample nearest x = 0.46 (the Ks band) and finally scaled by AKs.
 *
 * All quantities are exact reals. The one non-integer power, x ** 1.61,
 * is a parameter.
 */
module Cardelli {
  import opened Common

  /** `x ** 1.61`, left uninterpreted. */
  type Power = real -> real

  // ---------------------------------------------------------------------
  // Regimes
  // ---------------------------------------------------------------------

  /** The four wavenumber regimes of the law. */
  datatype Regime = Infrared | Optical | Ultraviolet | FarUltraviolet

  /** The index masks the routine builds with `np.where`. */
  predicate InfraredMask(x: real) { x <= 1.1 }
  predicate OpticalMask(x: real) { 1.1 < x <= 3.3 }
  predicate UltravioletMask(x: real) { 3.3 < x < 5.9 }
  predicate FarUltravioletMask(x: real) { x >= 5.9 }

  /**
   * The regime of a wavenumber. Each regime holds exactly when its mask
   * does, so the four masks partition the reals: every entry of a and b
   * is written by exactly one branch.
   */
  function RegimeOf(x: real): (r: Regime)
    ensures r == Infrared <==> InfraredMask(x)
    ensures r == Optical <==> OpticalMask(x)
    ensures r == Ultraviolet <==> UltravioletMask(x)
    ensures r == FarUltraviolet <==> FarUltravioletMask(x)
  {
    if x <= 1.1 then Infrared
    else if x <= 3.3 then Optical
    else if x < 5.9 then Ultraviolet
    else FarUltraviolet
  }

  /** The order in which the routine fills the regimes. */
  function RegimeRank(r: Regime): nat {
    match r
    case Infrared => 0
    case Optical => 1
    case Ultraviolet => 2
    case FarUltraviolet => 3
  }

  // ---------------------------------------------------------------------
  // Coefficients
  // ---------------------------------------------------------------------

  /** `z ** n` for a whole exponent. */
  function Pow(z: real, n: nat): real {
    if n == 0 then 1.0 else z * Pow(z, n - 1)
  }

  /** The pair (a(x), b(x)). */
  datatype Coefficients = Coefficients(a: real, b: real)

  /** x <= 1.1. */
  function InfraredCoefficients(x: real, pow161: Power): Coefficients {
    Coefficients(0.574 * pow161(x), -0.527 * pow161(x))
  }

  /** 1.1 < x <= 3.3: seventh-degree polynomials in y = x - 1.82. */
  function OpticalCoefficients(x: real): Coefficients {
    var y := x - 1.82;
    Coefficients(
      1.0 + (0.17699 * y) - (0.50447 * Pow(y, 2)) - (0.02427 * Pow(y, 3)) + (0.72085 * Pow(y, 4)) +
        (0.01979 * Pow(y, 5)) - (0.77530 * Pow(y, 6)) + (0.32999 * Pow(y, 7)),
      (1.41338 * y) + (2.28305 * Pow(y, 2)) + (1.07233 * Pow(y, 3)) - (5.38434 * Pow(y, 4)) -
        (0.62251 * Pow(y, 5)) + (5.30260 * Pow(y, 6)) - (2.09002 * Pow(y, 7)))
  }

  /** A square plus a positive constant: never zero, so the divisions below are defined. */
  function ShiftedSquare(x: real, centre: real, offset: real): (d: real)
    requires offset > 0.0
    ensures d >= offset
  {
    (x - centre) * (x - centre) + offset
  }

  /** 3.3 < x < 5.9. */
  function UltravioletCoefficients(x: real): Coefficients {
    Coefficients(
      1.752 - (0.316 * x) - (0.104 / ShiftedSquare(x, 4.67, 0.341)),
      -3.090 + (1.825 * x) + (1.206 / ShiftedSquare(x, 4.62, 0.263)))
  }

  /** x >= 5.9. */
  function FarUltravioletCoefficients(x: real): Coefficients {
    Coefficients(
      1.752 - (0.316 * x) - (0.104 / ShiftedSquare(x, 4.67, 0.341)) +
        (-0.04473 * Pow(x - 5.9, 2)) - (0.009779 * Pow(x - 5.9, 3)),
      -3.090 + (1.825 * x) + (1.206 / ShiftedSquare(x, 4.62, 0.263)) +
        (0.2130 * Pow(x - 5.9, 2)) + (0.1207 * Pow(x - 5.9, 3)))
  }

  /** The coefficients the routine leaves in a[i], b[i] for wavenumber x. */
  function CoefficientsAt(x: real, pow161: Power): Coefficients {
    match RegimeOf(x)
    case Infrared => InfraredCoefficients(x, pow161)
    case Optical => OpticalCoefficients(x)
    case Ultraviolet => UltravioletCoefficients(x)
    case FarUltraviolet => FarUltravioletCoefficients(x)
  }

  /** a[i], b[i] after the first `stage` regime loops: still zero for a later regime. */
  function Filled(x: real, pow161: Power, stage: nat): Coefficients {
    if RegimeRank(RegimeOf(x)) < stage then CoefficientsAt(x, pow161) else Coefficients(0.0, 0.0)
  }

  /** A(λ)/A(V) = a + b/Rv. */
  function Extinction(c: Coefficients, rv: real): real
    requires rv != 0.0
  {
    c.a + c.b / rv
  }

  lemma PowOfZero(n: nat)
    requires n >= 1
    ensures Pow(0.0, n) == 0.0
  {
  }

  /** At x = 1.82 (y = 0) the optical polynomials give a = 1 and b = 0, so A/A(V) = 1 for every Rv. */
  lemma OpticalPivot(rv: real, pow161: Power)
    requires rv != 0.0
    ensures OpticalCoefficients(1.82) == Coefficients(1.0, 0.0)
    ensures Extinction(CoefficientsAt(1.82, pow161), rv) == 1.0
  {
    PowOfZero(2);
    PowOfZero(3);
    PowOfZero(4);
    PowOfZero(5);
    PowOfZero(6);
    PowOfZero(7);
  }

  /** At x = 5.9 the far-ultraviolet corrections vanish: the two ultraviolet formulas agree there. */
  lemma UltravioletBranchesMeet()
    ensures FarUltravioletCoefficients(5.9) == UltravioletCoefficients(5.9)
    ensures RegimeOf(5.9) == FarUltraviolet
  {
    PowOfZero(2);
    PowOfZero(3);
  }

  // ---------------------------------------------------------------------
  // Domain check and normalisation index
  // ---------------------------------------------------------------------

  /** The routine's refusals. */
  datatype CardelliError =
    | NoWavelengths        // `np.min` of an empty array raises
    | WavelengthTooLong    // some wavenumber below 0.3
    | WavelengthTooShort   // some wavenumber above 8.0 (a zero wavelength gives +inf)
    | NonFinite            // Rv = 0, or A/A(V) = 0 at the Ks sample: the result is inf or nan

  /** The wavenumber 1/λ lies below 0.3 (this includes every negative wavelength). */
  predicate TooLong(w: real) {
    w != 0.0 && 1.0 / w < 0.3
  }

  /** The wavenumber 1/λ lies above 8.0; λ = 0 gives +inf, which does too. */
  predicate TooShort(w: real) {
    w == 0.0 || 1.0 / w > 8.0
  }

  predicate InDomain(w: real) {
    !TooLong(w) && !TooShort(w)
  }

  /** An accepted wavelength has a wavenumber in [0.3, 8.0]. */
  lemma InDomainRange(w: real)
    requires InDomain(w)
    ensures w != 0.0 && 0.3 <= 1.0 / w <= 8.0
  {
  }

  /** The distance to the Ks wavenumber 0.46, `abs(x - 0.46)`. */
  function KsDistance(x: real): real {
    if x >= 0.46 then x - 0.46 else 0.46 - x
  }

  /** `k` is the first index at the smallest distance from 0.46. */
  predicate IsNearestKs(x: seq<real>, k: int) {
    0 <= k < |x| &&
    (forall i :: 0 <= i < |x| ==> KsDistance(x[k]) <= KsDistance(x[i])) &&
    (forall i :: 0 <= i < k ==> KsDistance(x[i]) > KsDistance(x[k]))
  }

  /** `np.where(abs(x - 0.46) == min(abs(x - 0.46)))`, taking the first index of a tie. */
  function NearestKs(x: seq<real>): (k: nat)
    requires |x| > 0
    ensures IsNearestKs(x, k)
    decreases |x|
  {
    if |x| == 1 then 0
    else
      var front := x[..|x| - 1];
      var k := NearestKs(front);
      assert forall i :: 0 <= i < |front| ==> front[i] == x[i];
      if KsDistance(x[|x| - 1]) < KsDistance(x[k]) then |x| - 1 else k
  }

  /** There is only one first nearest index. */
  lemma NearestKsUnique(x: seq<real>, k: int, l: int)
    requires IsNearestKs(x, k) && IsNearestKs(x, l)
    ensures k == l
  {
    assert KsDistance(x[k]) <= KsDistance(x[l]) && KsDistance(x[l]) <= KsDistance(x[k]);
  }

  // ---------------------------------------------------------------------
  // The law
  // ---------------------------------------------------------------------

  /** `1.0 / np.array(wavelength)` on wavelengths already known to be non-zero. */
  function Wavenumbers(wavelength: seq<real>): (x: seq<real>)
    requires forall i :: 0 <= i < |wavelength| ==> wavelength[i] != 0.0
    ensures |x| == |wavelength|
    ensures forall i :: 0 <= i < |x| ==> x[i] * wavelength[i] == 1.0
  {
    seq(|wavelength|, i requires 0 <= i < |wavelength| => 1.0 / wavelength[i])
  }

  /** `extinction = a + b/Rv`, entry by entry. */
  function ExtinctionCurve(x: seq<real>, rv: real, pow161: Power): (e: seq<real>)
    requires rv != 0.0
    ensures |e| == |x|
  {
    seq(|x|, i requires 0 <= i < |x| => Extinction(CoefficientsAt(x[i], pow161), rv))
  }

  /** `extinction * (1.0 / extinction[k])`, then `*= AKs`. */
  function Normalised(extinction: seq<real>, k: nat, aks: real): (out: seq<real>)
    requires k < |extinction| && extinction[k] != 0.0
    ensures |out| == |extinction|
  {
    seq(|extinction|, i requires 0 <= i < |extinction| => extinction[i] * (1.0 / extinction[k]) * aks)
  }

  /** The Cardelli law at the given wavelengths (microns), for Rv and AKs. */
  function CardelliCurve(wavelength: seq<real>, rv: real, aks: real, pow161: Power)
    : Result<seq<real>, CardelliError>
  {
    if |wavelength| == 0 then Failure(NoWavelengths)
    else if exists i :: 0 <= i < |wavelength| && TooLong(wavelength[i]) then Failure(WavelengthTooLong)
    else if exists i :: 0 <= i < |wavelength| && TooShort(wavelength[i]) then Failure(WavelengthTooShort)
    else if rv == 0.0 then Failure(NonFinite)
    else
      var x := Wavenumbers(wavelength);
      var extinction := ExtinctionCurve(x, rv, pow161);
      var k := NearestKs(x);
      if extinction[k] == 0.0 then Failure(NonFinite)
      else Success(Normalised(extinction, k, aks))
  }

  /**
   * `RedLawCardelli.cardelli`: the same computation on arrays, filling a
   * and b in place one regime mask at a time and scaling the output in
   * place by AKs.
   */
  method Cardelli(wavelength: array<real>, rv: real, aks: real, pow161: Power)
    returns (r: Result<seq<real>, CardelliError>)
    ensures r == CardelliCurve(wavelength[..], rv, aks, pow161)
  {
    var n := wavelength.Length;
    if n == 0 {
      return Failure(NoWavelengths);
    }
    var x, tooLong, tooShort := InvertWavelengths(wavelength);
    if tooLong {
      return Failure(WavelengthTooLong);
    }
    if tooShort {
      return Failure(WavelengthTooShort);
    }
    var a := new real[n](_ => 0.0);
    var b := new real[n](_ => 0.0);
    FillInfrared(x, a, b, pow161);
    FillOptical(x, a, b, pow161);
    FillUltraviolet(x, a, b, pow161);
    FillFarUltraviolet(x, a, b, pow161);
    if rv == 0.0 {
      return Failure(NonFinite);
    }
    var extinction := ExtinctionOf(x, a, b, rv, pow161);
    var k := NearestIndex(x);
    if extinction[k] == 0.0 {
      return Failure(NonFinite);
    }
    var output := Normalise(extinction, k, aks);
    return Success(output[..]);
  }

  /**
   * `x = 1.0 / np.array(wavelength)` with the `np.min(x) < 0.3` and
   * `np.max(x) > 8.0` checks; when neither check fires, `x` holds every
   * wavenumber.
   */
  method InvertWavelengths(wavelength: array<real>) returns (x: array<real>, tooLong: bool, tooShort: bool)
    ensures fresh(x) && x.Length == wavelength.Length
    ensures tooLong <==> exists j :: 0 <= j < wavelength.Length && TooLong(wavelength[j])
    ensures tooShort <==> exists j :: 0 <= j < wavelength.Length && TooShort(wavelength[j])
    ensures !tooShort ==> x[..] == Wavenumbers(wavelength[..])
  {
    var n := wavelength.Length;
    x := new real[n];
    tooLong, tooShort := false, false;
    for i := 0 to n
      invariant tooLong <==> exists j :: 0 <= j < i && TooLong(wavelength[j])
      invariant tooShort <==> exists j :: 0 <= j < i && TooShort(wavelength[j])
      invariant forall j :: 0 <= j < i && wavelength[j] != 0.0 ==> x[j] == 1.0 / wavelength[j]
    {
      if wavelength[i] == 0.0 {
        tooShort := true;
      } else {
        x[i] := 1.0 / wavelength[i];
        if x[i] < 0.3 {
          tooLong := true;
        }
        if x[i] > 8.0 {
          tooShort := true;
        }
      }
    }
  }

  /** `extinction = a + b/Rv` on the filled coefficient arrays. */
  method ExtinctionOf(x: array<real>, a: array<real>, b: array<real>, rv: real, pow161: Power)
    returns (extinction: array<real>)
    requires rv != 0.0 && a.Length == x.Length && b.Length == x.Length
    requires forall j :: 0 <= j < x.Length ==> Coefficients(a[j], b[j]) == CoefficientsAt(x[j], pow161)
    ensures fresh(extinction)
    ensures extinction[..] == ExtinctionCurve(x[..], rv, pow161)
  {
    extinction := new real[x.Length];
    for i := 0 to x.Length
      invariant forall j :: 0 <= j < i ==> extinction[j] == Extinction(CoefficientsAt(x[j], pow161), rv)
    {
      extinction[i] := a[i] + b[i] / rv;
    }
  }

  /** `output = extinction * Av_Aks` with `Av_Aks = 1.0 / extinction[k]`, then `output *= AKs` in place. */
  method Normalise(extinction: array<real>, k: nat, aks: real) returns (output: array<real>)
    requires k < extinction.Length && extinction[k] != 0.0
    ensures fresh(output)
    ensures output[..] == Normalised(extinction[..], k, aks)
  {
    var avAks := 1.0 / extinction[k];
    output := ScaledCopy(extinction, avAks);
    ScaleInPlace(output, aks);
    assert forall j :: 0 <= j < output.Length ==> output[..][j] == Normalised(extinction[..], k, aks)[j];
  }

  /** `extinction * factor`: a new array. */
  method ScaledCopy(extinction: array<real>, factor: real) returns (output: array<real>)
    ensures fresh(output) && output.Length == extinction.Length
    ensures forall j :: 0 <= j < output.Length ==> output[j] == extinction[j] * factor
  {
    output := new real[extinction.Length];
    for i := 0 to extinction.Length
      invariant forall j :: 0 <= j < i ==> output[j] == extinction[j] * factor
    {
      output[i] := extinction[i] * factor;
    }
  }

  /** `output *= factor`, in place. */
  method ScaleInPlace(output: array<real>, factor: real)
    modifies output
    ensures forall j :: 0 <= j < output.Length ==> output[j] == old(output[j]) * factor
  {
    for i := 0 to output.Length
      invariant forall j :: 0 <= j < i ==> output[j] == old(output[j]) * factor
      invariant forall j :: i <= j < output.Length ==> output[j] == old(output[j])
    {
      output[i] := output[i] * factor;
    }
  }

  /** `a[idx], b[idx] = ...` for the infrared mask. */
  method FillInfrared(x: array<real>, a: array<real>, b: array<real>, pow161: Power)
    requires a.Length == x.Length && b.Length == x.Length && a != b && x != a && x != b
    requires forall j :: 0 <= j < x.Length ==> a[j] == 0.0 && b[j] == 0.0
    modifies a, b
    ensures forall j :: 0 <= j < x.Length ==> Coefficients(a[j], b[j]) == Filled(x[j], pow161, 1)
  {
    for i := 0 to x.Length
      invariant forall j :: 0 <= j < i ==> Coefficients(a[j], b[j]) == Filled(x[j], pow161, 1)
      invariant forall j :: i <= j < x.Length ==> a[j] == 0.0 && b[j] == 0.0
    {
      if InfraredMask(x[i]) {
        a[i] := 0.574 * pow161(x[i]);
        b[i] := -0.527 * pow161(x[i]);
      }
    }
  }

  /** `a[idx], b[idx] = ...` for the optical mask, with `yy = y[idx]`, `y = x - 1.82`. */
  method FillOptical(x: array<real>, a: array<real>, b: array<real>, pow161: Power)
    requires a.Length == x.Length && b.Length == x.Length && a != b && x != a && x != b
    requires forall j :: 0 <= j < x.Length ==> Coefficients(a[j], b[j]) == Filled(x[j], pow161, 1)
    modifies a, b
    ensures forall j :: 0 <= j < x.Length ==> Coefficients(a[j], b[j]) == Filled(x[j], pow161, 2)
  {
    for i := 0 to x.Length
      invariant forall j :: 0 <= j < i ==> Coefficients(a[j], b[j]) == Filled(x[j], pow161, 2)
      invariant forall j :: i <= j < x.Length ==> Coefficients(a[j], b[j]) == Filled(x[j], pow161, 1)
    {
      if OpticalMask(x[i]) {
        var c := OpticalCoefficients(x[i]);
        a[i] := c.a;
        b[i] := c.b;
      }
    }
  }

  /** `a[idx], b[idx] = ...` for the ultraviolet mask. */
  method FillUltraviolet(x: array<real>, a: array<real>, b: array<real>, pow161: Power)
    requires a.Length == x.Length && b.Length == x.Length && a != b && x != a && x != b
    requires forall j :: 0 <= j < x.Length ==> Coefficients(a[j], b[j]) == Filled(x[j], pow161, 2)
    modifies a, b
    ensures forall j :: 0 <= j < x.Length ==> Coefficients(a[j], b[j]) == Filled(x[j], pow161, 3)
  {
    for i := 0 to x.Length
      invariant forall j :: 0 <= j < i ==> Coefficients(a[j], b[j]) == Filled(x[j], pow161, 3)
      invariant forall j :: i <= j < x.Length ==> Coefficients(a[j], b[j]) == Filled(x[j], pow161, 2)
    {
      if UltravioletMask(x[i]) {
        var c := UltravioletCoefficients(x[i]);
        a[i] := c.a;
        b[i] := c.b;
      }
    }
  }

  /** `a[idx], b[idx] = ...` for the far-ultraviolet mask: every entry now holds its regime's formula. */
  method FillFarUltraviolet(x: array<real>, a: array<real>, b: array<real>, pow161: Power)
    requires a.Length == x.Length && b.Length == x.Length && a != b && x != a && x != b
    requires forall j :: 0 <= j < x.Length ==> Coefficients(a[j], b[j]) == Filled(x[j], pow161, 3)
    modifies a, b
    ensures forall j :: 0 <= j < x.Length ==> Coefficients(a[j], b[j]) == CoefficientsAt(x[j], pow161)
  {
    for i := 0 to x.Length
      invariant forall j :: 0 <= j < i ==> Coefficients(a[j], b[j]) == CoefficientsAt(x[j], pow161)
      invariant forall j :: i <= j < x.Length ==> Coefficients(a[j], b[j]) == Filled(x[j], pow161, 3)
    {
      if FarUltravioletMask(x[i]) {
        var c := FarUltravioletCoefficients(x[i]);
        a[i] := c.a;
        b[i] := c.b;
      }
    }
  }

  /** The index of the sample nearest the Ks wavenumber, first of a tie. */
  method NearestIndex(x: array<real>) returns (k: nat)
    requires x.Length > 0
    ensures k == NearestKs(x[..])
  {
    k := 0;
    for i := 1 to x.Length
      invariant IsNearestKs(x[..i], k)
    {
      if KsDistance(x[i]) < KsDistance(x[k]) {
        k := i;
      }
    }
    assert x[..x.Length] == x[..];
    NearestKsUnique(x[..], k, NearestKs(x[..]));
  }

  // ---------------------------------------------------------------------
  // Properties of the law
  // ---------------------------------------------------------------------

  /**
   * The whole input is refused when it is empty or when any wavenumber
   * falls outside [0.3, 8.0]; otherwise the law either meets a
   * non-finite value or returns one value per wavelength.
   */
  lemma CardelliDomain(wavelength: seq<real>, rv: real, aks: real, pow161: Power)
    ensures (exists i :: 0 <= i < |wavelength| && !InDomain(wavelength[i])) ==>
              CardelliCurve(wavelength, rv, aks, pow161).Failure? &&
              CardelliCurve(wavelength, rv, aks, pow161).error in {WavelengthTooLong, WavelengthTooShort}
    ensures CardelliCurve(wavelength, rv, aks, pow161).Success? ==>
              |CardelliCurve(wavelength, rv, aks, pow161).value| == |wavelength| &&
              forall i :: 0 <= i < |wavelength| ==> InDomain(wavelength[i])
    ensures |wavelength| > 0 && rv != 0.0 && (forall i :: 0 <= i < |wavelength| ==> InDomain(wavelength[i])) ==>
              CardelliCurve(wavelength, rv, aks, pow161).Success? ||
              CardelliCurve(wavelength, rv, aks, pow161) == Failure(NonFinite)
  {
    if exists i :: 0 <= i < |wavelength| && !InDomain(wavelength[i]) {
      var i :| 0 <= i < |wavelength| && !InDomain(wavelength[i]);
      assert TooLong(wavelength[i]) || TooShort(wavelength[i]);
    }
  }

  /** Normalising makes entry `k` exactly AKs. */
  lemma NormalisedAnchor(extinction: seq<real>, k: nat, aks: real)
    requires k < |extinction| && extinction[k] != 0.0
    ensures Normalised(extinction, k, aks)[k] == aks
  {
    var e := extinction[k];
    assert e * (1.0 / e) == 1.0;
  }

  /** A result with every value multiplied by AKs; failures pass through. */
  function ScaledBy(r: Result<seq<real>, CardelliError>, aks: real): Result<seq<real>, CardelliError> {
    match r
    case Success(v) => Success(seq(|v|, i requires 0 <= i < |v| => v[i] * aks))
    case Failure(e) => Failure(e)
  }

  /** Normalising with AKs is normalising with 1 and then scaling by AKs. */
  lemma NormalisedScales(extinction: seq<real>, k: nat, aks: real)
    requires k < |extinction| && extinction[k] != 0.0
    ensures Success(Normalised(extinction, k, aks)) == ScaledBy(Success(Normalised(extinction, k, 1.0)), aks)
  {
    var unit := Normalised(extinction, k, 1.0);
    var scaled := seq(|unit|, i requires 0 <= i < |unit| => unit[i] * aks);
    assert forall i :: 0 <= i < |unit| ==> scaled[i] == Normalised(extinction, k, aks)[i];
    assert scaled == Normalised(extinction, k, aks);
  }

  /** At the sample nearest x = 0.46 the output is exactly AKs. */
  lemma CardelliKsAnchor(wavelength: seq<real>, rv: real, aks: real, pow161: Power)
    requires CardelliCurve(wavelength, rv, aks, pow161).Success?
    ensures forall i :: 0 <= i < |wavelength| ==> wavelength[i] != 0.0
    ensures var k := NearestKs(Wavenumbers(wavelength));
      k < |CardelliCurve(wavelength, rv, aks, pow161).value| &&
      CardelliCurve(wavelength, rv, aks, pow161).value[k] == aks
  {
    assert forall i :: 0 <= i < |wavelength| ==> !TooShort(wavelength[i]);
    var x := Wavenumbers(wavelength);
    NormalisedAnchor(ExtinctionCurve(x, rv, pow161), NearestKs(x), aks);
  }

  /**
   * The law is AKs times its AKs = 1 curve: it fails with the same error
   * whatever AKs is, and otherwise scales every entry of the unit curve.
   */
  lemma CardelliScalesWithAks(wavelength: seq<real>, rv: real, aks: real, pow161: Power)
    ensures CardelliCurve(wavelength, rv, aks, pow161) == ScaledBy(CardelliCurve(wavelength, rv, 1.0, pow161), aks)
  {
    if |wavelength| == 0 || rv == 0.0 {
    } else if exists i :: 0 <= i < |wavelength| && TooLong(wavelength[i]) {
    } else if exists i :: 0 <= i < |wavelength| && TooShort(wavelength[i]) {
    } else {
      var x := Wavenumbers(wavelength);
      var e := ExtinctionCurve(x, rv, pow161);
      var k := NearestKs(x);
      if e[k] != 0.0 {
        NormalisedScales(e, k, aks);
      }
    }
  }
}
