/**
 * Stellar atmosphere selection: one adapter per model family, each handing
 * a fixed library identifier to the catalog lookup and flagging an all-zero
 * flux as "model not found", and the merged dispatch that picks one family
 * from temperature and log g.
 *
 * The catalog lookup (pysynphot's `Icat`) is a parameter: it maps a
 * library identifier, temperature, metallicity and log g to a spectrum.
 */
module Atmospheres {
  import opened Common

  /** A sampled spectral energy distribution. */
  datatype Spectrum = Spectrum(wave: seq<real>, flux: seq<real>)

  /** The catalog lookup: library id, temperature, metallicity, log gravity. */
  type Catalog = (string, real, real, real) -> Spectrum

  /** The five model families the adapters serve. */
  datatype Family = Kurucz1993 | CastelliKurucz2004 | NextGen | AmesDusty | Phoenix

  /** What an adapter hands back: the catalog's spectrum, unchanged, and
      whether it is a real model (false: the diagnostic is printed). */
  datatype Atmosphere = Atmosphere(spectrum: Spectrum, found: bool)

  /** The library identifier each adapter passes to the catalog. */
  function LibraryId(family: Family): string {
    match family
    case Kurucz1993 => "k93models"
    case CastelliKurucz2004 => "ck04models"
    case NextGen => "nextgen"
    case AmesDusty => "AMESdusty"
    case Phoenix => "phoenix"
  }

  /** No two families share a library: each adapter reaches its own models. */
  lemma LibraryIdInjective(a: Family, b: Family)
    ensures LibraryId(a) == LibraryId(b) <==> a == b
  {
  }

  /** True when some flux sample is non-zero. */
  predicate HasNonZeroFlux(flux: seq<real>) {
    exists i :: 0 <= i < |flux| && flux[i] != 0.0
  }

  /** `np.where(flux != 0)[0]` restricted to the indices from `from` on. */
  function NonZeroIndicesFrom(flux: seq<real>, from: nat): (idx: seq<nat>)
    requires from <= |flux|
    ensures forall k :: 0 <= k < |idx| ==> from <= idx[k] < |flux| && flux[idx[k]] != 0.0
    ensures forall i :: from <= i < |flux| && flux[i] != 0.0 ==> i in idx
    ensures forall k, l :: 0 <= k < l < |idx| ==> idx[k] < idx[l]
    decreases |flux| - from
  {
    if from == |flux| then []
    else (if flux[from] != 0.0 then [from] else []) + NonZeroIndicesFrom(flux, from + 1)
  }

  /** `np.where(flux != 0)[0]`: the ascending indices of the non-zero samples. */
  function NonZeroIndices(flux: seq<real>): seq<nat> {
    NonZeroIndicesFrom(flux, 0)
  }

  /** The adapters' sentinel check: no index is non-zero exactly when every sample is zero. */
  lemma NoNonZeroIndexIffAllZero(flux: seq<real>)
    ensures |NonZeroIndices(flux)| == 0 <==> !HasNonZeroFlux(flux)
  {
    var idx := NonZeroIndices(flux);
    if |idx| != 0 {
      assert flux[idx[0]] != 0.0;
    }
    if HasNonZeroFlux(flux) {
      var i :| 0 <= i < |flux| && flux[i] != 0.0;
      assert i in idx;
    }
  }

  /**
   * The body shared by the five adapters: look the model up under the
   * family's library id, with the caller's (metallicity, temperature,
   * gravity) passed on in the catalog's order (temperature, metallicity,
   * gravity), and mark the spectrum as not found when no flux sample is
   * non-zero. The spectrum is returned unchanged either way.
   */
  function FetchAtmosphere(family: Family, icat: Catalog, metallicity: real, temperature: real, gravity: real)
    : (r: Atmosphere)
    ensures r.spectrum == icat(LibraryId(family), temperature, metallicity, gravity)
    ensures r.found <==> HasNonZeroFlux(r.spectrum.flux)
  {
    var sp := icat(LibraryId(family), temperature, metallicity, gravity);
    NoNonZeroIndexIffAllZero(sp.flux);
    Atmosphere(sp, |NonZeroIndices(sp.flux)| != 0)
  }

  /** `get_kurucz_atmosphere`: Kurucz 1993 models. */
  function GetKuruczAtmosphere(icat: Catalog, metallicity: real, temperature: real, gravity: real)
    : (r: Atmosphere)
    ensures r.spectrum == icat("k93models", temperature, metallicity, gravity)
    ensures r.found <==> HasNonZeroFlux(r.spectrum.flux)
  {
    FetchAtmosphere(Kurucz1993, icat, metallicity, temperature, gravity)
  }

  /** `get_castelli_atmosphere`: Castelli and Kurucz 2004 models. */
  function GetCastelliAtmosphere(icat: Catalog, metallicity: real, temperature: real, gravity: real)
    : (r: Atmosphere)
    ensures r.spectrum == icat("ck04models", temperature, metallicity, gravity)
    ensures r.found <==> HasNonZeroFlux(r.spectrum.flux)
  {
    FetchAtmosphere(CastelliKurucz2004, icat, metallicity, temperature, gravity)
  }

  /** `get_nextgen_atmosphere`: NextGen models. */
  function GetNextGenAtmosphere(icat: Catalog, metallicity: real, temperature: real, gravity: real)
    : (r: Atmosphere)
    ensures r.spectrum == icat("nextgen", temperature, metallicity, gravity)
    ensures r.found <==> HasNonZeroFlux(r.spectrum.flux)
  {
    FetchAtmosphere(NextGen, icat, metallicity, temperature, gravity)
  }

  /** `get_amesdusty_atmosphere`: AMES-Dusty models. */
  function GetAmesDustyAtmosphere(icat: Catalog, metallicity: real, temperature: real, gravity: real)
    : (r: Atmosphere)
    ensures r.spectrum == icat("AMESdusty", temperature, metallicity, gravity)
    ensures r.found <==> HasNonZeroFlux(r.spectrum.flux)
  {
    FetchAtmosphere(AmesDusty, icat, metallicity, temperature, gravity)
  }

  /** `get_phoenix_atmosphere`: PHOENIX BT-Settl models. */
  function GetPhoenixAtmosphere(icat: Catalog, metallicity: real, temperature: real, gravity: real)
    : (r: Atmosphere)
    ensures r.spectrum == icat("phoenix", temperature, metallicity, gravity)
    ensures r.found <==> HasNonZeroFlux(r.spectrum.flux)
  {
    FetchAtmosphere(Phoenix, icat, metallicity, temperature, gravity)
  }

  /**
   * The family `get_merged_atmosphere` picks, checked in the source's
   * order; `None` is the fall-through at the end of the function.
   */
  function MergedFamily(temperature: real, gravity: real): (r: Option<Family>)
    ensures r.Some?
    ensures temperature < 4000.0 ==> r == Some(Phoenix)
    ensures 4000.0 <= temperature < 7000.0 && gravity < 4.0 ==> r == Some(Phoenix)
    ensures 4000.0 <= temperature < 7000.0 && gravity >= 4.0 ==> r == Some(NextGen)
    ensures temperature >= 7000.0 ==> r == Some(CastelliKurucz2004)
  {
    if temperature < 4000.0 || (temperature < 7000.0 && gravity < 4.0) then Some(Phoenix)
    else if temperature >= 4000.0 && temperature < 7000.0 && gravity >= 4.0 then Some(NextGen)
    else if temperature >= 7000.0 then Some(CastelliKurucz2004)
    else None
  }

  /** The three families the merged dispatch can reach. */
  lemma MergedFamilyRange(temperature: real, gravity: real)
    ensures MergedFamily(temperature, gravity) in {Some(Phoenix), Some(NextGen), Some(CastelliKurucz2004)}
  {
  }

  /**
   * `get_merged_atmosphere`: the spectrum of the family `MergedFamily`
   * picks, fetched with the caller's parameters; the trailing `None` of
   * the source is never returned for a real temperature.
   */
  function GetMergedAtmosphere(icat: Catalog, metallicity: real, temperature: real, gravity: real)
    : (r: Option<Atmosphere>)
    ensures r.Some?
    ensures temperature < 4000.0 ==> r == Some(GetPhoenixAtmosphere(icat, metallicity, temperature, gravity))
    ensures 4000.0 <= temperature < 7000.0 && gravity < 4.0 ==>
              r == Some(GetPhoenixAtmosphere(icat, metallicity, temperature, gravity))
    ensures 4000.0 <= temperature < 7000.0 && gravity >= 4.0 ==>
              r == Some(GetNextGenAtmosphere(icat, metallicity, temperature, gravity))
    ensures temperature >= 7000.0 ==> r == Some(GetCastelliAtmosphere(icat, metallicity, temperature, gravity))
  {
    match MergedFamily(temperature, gravity)
    case Some(family) => Some(FetchAtmosphere(family, icat, metallicity, temperature, gravity))
    case None => None
  }
}
