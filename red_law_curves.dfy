/**
 * The five reddening-law objects. Each constructor lays a wavelength grid
 * in microns with `np.arange`, evaluates its law on that grid for
 * AKs = 1, converts the grid to angstroms in place (`wave *= 10 ** 4`)
 * and hands grid, curve, name and literature reference to the spectral
 * element base class, whose fields are modelled here.
 */
module RedLawCurves {
  import opened Common
  import Cardelli
  import SplineLaws

  /** The number of points `np.arange(start, stop, step)` produces: the ceiling of (stop - start) / step. */
  function ArangeLength(start: real, stop: real, step: real): nat
    requires step > 0.0
  {
    if stop <= start then 0 else -((start - stop) / step).Floor
  }

  /** `np.arange(start, stop, step)` in exact arithmetic: start + i·step for every such point below stop. */
  function Arange(start: real, stop: real, step: real): (g: seq<real>)
    requires step > 0.0
    ensures |g| == ArangeLength(start, stop, step)
  {
    seq(ArangeLength(start, stop, step), i requires 0 <= i => start + (i as real) * step)
  }

  /** Every point lies in [start, stop), and one more step would reach stop: the grid is as long as it can be. */
  lemma ArangeBounds(start: real, stop: real, step: real)
    requires step > 0.0
    ensures var g := Arange(start, stop, step);
      (forall i :: 0 <= i < |g| ==> g[i] == start + (i as real) * step && start <= g[i] < stop) &&
      start + (|g| as real) * step >= stop
  {
    var g := Arange(start, stop, step);
    var n := |g|;
    if start < stop {
      var q := (stop - start) / step;
      assert q * step == stop - start;
      assert (start - stop) / step == -q;
      CeilingBounds(q);
      assert n == -(-q).Floor;
      ScaleMonotone(q, n as real, step);
      forall i | 0 <= i < n
        ensures start <= g[i] < stop
      {
        var r := i as real;
        assert g[i] == start + r * step;
        assert r + 1.0 <= n as real;
        assert r < q;
        ScaleMonotone(0.0, r, step);
        ScaleStrict(r, q, step);
        assert start + r * step < start + q * step;
      }
    }
  }

  /** The ceiling of q, written as Python's `-floor(-q)`, is at least q and less than q + 1. */
  lemma CeilingBounds(q: real)
    ensures (-(-q).Floor) as real >= q && ((-(-q).Floor) as real) < q + 1.0
  {
  }

  lemma ScaleMonotone(a: real, b: real, c: real)
    requires a <= b && c > 0.0
    ensures a * c <= b * c
  {
  }

  lemma ScaleStrict(a: real, b: real, c: real)
    requires a < b && c > 0.0
    ensures a * c < b * c
  {
  }

  /** `wave *= 10 ** 4`: microns to angstroms, in place. */
  method ConvertToAngstrom(wave: array<real>)
    modifies wave
    ensures forall i :: 0 <= i < wave.Length ==> wave[i] == old(wave[i]) * 10000.0
  {
    for i := 0 to wave.Length
      invariant forall j :: 0 <= j < i ==> wave[j] == old(wave[j]) * 10000.0
      invariant forall j :: i <= j < wave.Length ==> wave[j] == old(wave[j])
    {
      wave[i] := wave[i] * 10000.0;
    }
  }

  /** An array holding the grid, as numpy holds it. */
  method GridArray(g: seq<real>) returns (a: array<real>)
    ensures fresh(a) && a[..] == g
  {
    a := new real[|g|](i requires 0 <= i < |g| => g[i]);
  }

  /** Every point of the Cardelli grid, 0.5 <= λ < 3.0 microns, has a wavenumber in [1/3, 2], inside [0.3, 8.0]. */
  lemma CardelliGridInDomain()
    ensures |Arange(0.5, 3.0, 0.001)| == 2500
    ensures forall i :: 0 <= i < |Arange(0.5, 3.0, 0.001)| ==> Cardelli.InDomain(Arange(0.5, 3.0, 0.001)[i])
  {
    var g := Arange(0.5, 3.0, 0.001);
    ArangeBounds(0.5, 3.0, 0.001);
    forall i | 0 <= i < |g|
      ensures Cardelli.InDomain(g[i])
    {
      WavenumberInRange(g[i]);
    }
  }

  /** 0.5 <= λ < 3.0 gives 1/3 < 1/λ <= 2. */
  lemma WavenumberInRange(w: real)
    requires 0.5 <= w < 3.0
    ensures Cardelli.InDomain(w)
  {
    var x := 1.0 / w;
    assert x > 0.0 && x * w == 1.0;
    assert x * 3.0 > x * w;
    assert x * 0.5 <= x * w;
  }

  /** The Cardelli law on its own grid is never refused: it either succeeds or meets a non-finite value. */
  lemma CardelliGridAccepted(rv: real, pow161: Cardelli.Power)
    ensures var r := Cardelli.CardelliCurve(Arange(0.5, 3.0, 0.001), rv, 1.0, pow161);
      r.Success? || r == Failure(Cardelli.NonFinite)
  {
    CardelliGridInDomain();
    Cardelli.CardelliDomain(Arange(0.5, 3.0, 0.001), rv, 1.0, pow161);
  }

  /** A reddening law as the spectral element base class holds it. */
  class RedLawCurve {
    /** Grid in angstroms. */
    const wave: seq<real>
    /** A(λ) for AKs = 1 on the grid; none when the law produced no finite curve. */
    const avScaled: Option<seq<real>>
    const name: string
    const litref: string

    /** `RedLawNishiyama09()`. */
    constructor Nishiyama09(interp: SplineLaws.Interpolant)
      ensures var g := Arange(0.5, 8.0, 0.001);
        |wave| == |g| && (forall i :: 0 <= i < |g| ==> wave[i] == g[i] * 10000.0) &&
        avScaled == Some(SplineLaws.Nishiyama09(g, 1.0, interp))
      ensures name == "Nishiyama09" && litref == "Nishiyama+ 2009"
    {
      var w := GridArray(Arange(0.5, 8.0, 0.001));
      var curve := SplineLaws.Nishiyama09(w[..], 1.0, interp);
      ConvertToAngstrom(w);
      wave := w[..];
      avScaled := Some(curve);
      name := "Nishiyama09";
      litref := "Nishiyama+ 2009";
    }

    /** `RedLawCardelli(Rv)`: the array routine on the grid, AKs = 1. */
    constructor Cardelli89(rv: real, pow161: Cardelli.Power)
      ensures var g := Arange(0.5, 3.0, 0.001);
        |wave| == |g| && (forall i :: 0 <= i < |g| ==> wave[i] == g[i] * 10000.0) &&
        avScaled == match Cardelli.CardelliCurve(g, rv, 1.0, pow161)
                    case Success(v) => Some(v)
                    case Failure(_) => None
      ensures name == "Cardelli89" && litref == "Cardelli+ 2009"
    {
      var w := GridArray(Arange(0.5, 3.0, 0.001));
      var r := Cardelli.Cardelli(w, rv, 1.0, pow161);
      ConvertToAngstrom(w);
      wave := w[..];
      avScaled := match r
                  case Success(v) => Some(v)
                  case Failure(_) => None;
      name := "Cardelli89";
      litref := "Cardelli+ 2009";
    }

    /** `RedLawRomanZuniga07()`. */
    constructor RomanZuniga07(interp: SplineLaws.Interpolant)
      ensures var g := Arange(1.0, 8.0, 0.01);
        |wave| == |g| && (forall i :: 0 <= i < |g| ==> wave[i] == g[i] * 10000.0) &&
        avScaled == Some(SplineLaws.RomanZuniga07(g, 1.0, interp))
      ensures name == "RomanZuniga07" && litref == "Roman-Zuniga+ 2007"
    {
      var w := GridArray(Arange(1.0, 8.0, 0.01));
      var curve := SplineLaws.RomanZuniga07(w[..], 1.0, interp);
      ConvertToAngstrom(w);
      wave := w[..];
      avScaled := Some(curve);
      name := "RomanZuniga07";
      litref := "Roman-Zuniga+ 2007";
    }

    /** `RedLawRiekeLebofsky()`. */
    constructor RiekeLebofsky(interp: SplineLaws.Interpolant)
      ensures var g := Arange(0.365, 13.0, 0.001);
        |wave| == |g| && (forall i :: 0 <= i < |g| ==> wave[i] == g[i] * 10000.0) &&
        avScaled == SplineLaws.RiekeLebofsky(g, 1.0, interp)
      ensures name == "RiekeLebofsky" && litref == "Rieke+Lebovsky 1985"
    {
      var w := GridArray(Arange(0.365, 13.0, 0.001));
      var curve := SplineLaws.RiekeLebofsky(w[..], 1.0, interp);
      ConvertToAngstrom(w);
      wave := w[..];
      avScaled := curve;
      name := "RiekeLebofsky";
      litref := "Rieke+Lebovsky 1985";
    }

    /** `RedLawWesterlund1()`. */
    constructor Westerlund1(interp: SplineLaws.Interpolant)
      ensures var g := Arange(0.5, 8.0, 0.001);
        |wave| == |g| && (forall i :: 0 <= i < |g| ==> wave[i] == g[i] * 10000.0) &&
        avScaled == Some(SplineLaws.Westerlund1(g, 1.0, interp))
      ensures name == "Westerlund1" && litref == "Lu+ 2015"
    {
      var w := GridArray(Arange(0.5, 8.0, 0.001));
      var curve := SplineLaws.Westerlund1(w[..], 1.0, interp);
      ConvertToAngstrom(w);
      wave := w[..];
      avScaled := Some(curve);
      name := "Westerlund1";
      litref := "Lu+ 2015";
    }
  }

  /** The grid lengths of the five constructors. */
  lemma GridLengths()
    ensures |Arange(0.5, 8.0, 0.001)| == 7500
    ensures |Arange(0.5, 3.0, 0.001)| == 2500
    ensures |Arange(1.0, 8.0, 0.01)| == 700
    ensures |Arange(0.365, 13.0, 0.001)| == 12635
  {
  }
}
