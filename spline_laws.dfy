/**
 * The four tabulated extinction laws of the reddening module: Nishiyama
 * et al. 2009, Roman-Zuniga et al. 2007, Rieke & Lebofsky 1985 and the
 * Westerlund 1 law. Each holds a fixed table of filters, wavelengths
 * (microns) and A(λ)/A(Ks) values, fits an interpolating cubic spline
 * through it and returns AKs times the spline at the requested
 * wavelengths. Rieke & Lebofsky tabulate A(λ)/A(V) and first renormalise
 * the table by its K entry.
 *
 * The spline fit and evaluation are a parameter: a function of the nodes
 * and the evaluation point.
 */
module SplineLaws {
  import opened Common

  /** A law's table: filter names, central wavelengths and extinction values. */
  datatype ExtinctionTable = ExtinctionTable(filters: seq<string>, wave: seq<real>, values: seq<real>)

  /** Each wavelength from position `from` on is below the next one. */
  predicate IncreasingFrom(w: seq<real>, from: nat)
    decreases |w| - from
  {
    from + 1 >= |w| || (w[from] < w[from + 1] && IncreasingFrom(w, from + 1))
  }

  /** Parallel arrays of one length, with strictly increasing wavelengths (as the spline fit needs). */
  predicate WellFormed(t: ExtinctionTable) {
    |t.filters| == |t.wave| == |t.values| > 0 && IncreasingFrom(t.wave, 0)
  }

  /** Increasing neighbours make every earlier wavelength smaller than every later one. */
  lemma {:induction false} IncreasingPairwise(w: seq<real>, from: nat)
    requires IncreasingFrom(w, from)
    ensures forall i, j :: from <= i < j < |w| ==> w[i] < w[j]
    decreases |w| - from
  {
    if from + 1 < |w| {
      IncreasingPairwise(w, from + 1);
    }
  }

  /** The first index holding `name`, as `np.where(np.array(filters) == name)` finds it. */
  function FilterIndex(filters: seq<string>, name: string): (r: Option<nat>)
    ensures r.Some? ==> r.value < |filters|
  {
    FilterIndexFrom(filters, name, 0)
  }

  /** The first index at or after `from` holding `name`. */
  function FilterIndexFrom(filters: seq<string>, name: string, from: nat): (r: Option<nat>)
    ensures r.Some? ==> from <= r.value < |filters|
    decreases |filters| - from
  {
    if from >= |filters| then None
    else if filters[from] == name then Some(from)
    else FilterIndexFrom(filters, name, from + 1)
  }

  /** The search from `from` finds nothing exactly when the name is absent there, and otherwise its first occurrence there. */
  lemma {:induction false} FilterIndexFromSpec(filters: seq<string>, name: string, from: nat)
    ensures FilterIndexFrom(filters, name, from).None? <==> forall i :: from <= i < |filters| ==> filters[i] != name
    ensures FilterIndexFrom(filters, name, from).Some? ==>
              var k := FilterIndexFrom(filters, name, from).value;
              filters[k] == name && forall i :: from <= i < k ==> filters[i] != name
    decreases |filters| - from
  {
    if from < |filters| && filters[from] != name {
      FilterIndexFromSpec(filters, name, from + 1);
    }
  }

  /** The lookup finds nothing exactly when the name is absent, and otherwise finds its first occurrence. */
  lemma FilterIndexSpec(filters: seq<string>, name: string)
    ensures FilterIndex(filters, name).None? <==> name !in filters
    ensures FilterIndex(filters, name).Some? ==>
              var k := FilterIndex(filters, name).value;
              filters[k] == name && forall i :: 0 <= i < k ==> filters[i] != name
  {
    FilterIndexFromSpec(filters, name, 0);
  }

  /** A name found at `k` and nowhere before it is found at `k`. */
  lemma FilterIndexAt(filters: seq<string>, name: string, k: nat)
    requires k < |filters| && filters[k] == name
    requires forall i :: 0 <= i < k ==> filters[i] != name
    ensures FilterIndex(filters, name) == Some(k)
  {
    FilterIndexFromSpec(filters, name, 0);
  }

  /** Entry `k` of the table lies at `wavelength` and its value is exactly 1. */
  predicate NormalisedAt(t: ExtinctionTable, k: nat, wavelength: real) {
    WellFormed(t) && k < |t.wave| && t.wave[k] == wavelength && t.values[k] == 1.0
  }

  // ---------------------------------------------------------------------
  // The tables
  // ---------------------------------------------------------------------

  /** HST + VISTA filters with Nishiyama et al. 2009 A/AKs values. */
  function NishiyamaTable(): ExtinctionTable {
    ExtinctionTable(
      ["V", "F814W", "Z", "Y", "J", "F160W", "H", "Ks", "[3.6]", "[4.5]", "[5.8]", "[8.0]"],
      [0.551, 0.8059, 0.877, 1.02, 1.25, 1.53, 1.645, 2.14, 3.545, 4.442, 5.675, 7.760],
      [16.13, 8.8707, 7.4337, 5.1866, 3.02, 1.9256, 1.7032, 1.00, 0.500, 0.390, 0.360, 0.430])
  }

  /** Roman-Zuniga et al. 2007 A/AKs values. */
  function RomanZunigaTable(): ExtinctionTable {
    ExtinctionTable(
      ["J", "H", "Ks", "[3.6]", "[4.5]", "[5.8]", "[8.0]"],
      [1.240, 1.664, 2.164, 3.545, 4.442, 5.675, 7.760],
      [2.299, 1.550, 1.000, 0.618, 0.525, 0.462, 0.455])
  }

  /** The Westerlund 1 law: Nishiyama wavelengths with values fitted to Westerlund 1. */
  function WesterlundTable(): ExtinctionTable {
    ExtinctionTable(
      ["V", "F814W", "Z", "Y", "J", "F160W", "H", "Ks", "[3.6]", "[4.5]", "[5.8]", "[8.0]"],
      [0.551, 0.8059, 0.877, 1.02, 1.25, 1.53, 1.645, 2.14, 3.545, 4.442, 5.675, 7.760],
      [16.13, 8.52, 6.0, 4.32, 3.02, 2.07, 1.82, 1.00, 0.500, 0.390, 0.360, 0.430])
  }

  /** Rieke & Lebofsky 1985 A/Av values, at the wavelengths of the Nishiyama et al. 2009 plot. */
  function RiekeLebofskyAvTable(): ExtinctionTable {
    ExtinctionTable(RiekeLebofskyFilters(), RiekeLebofskyWave(), RiekeLebofskyAv())
  }

  /** The Rieke & Lebofsky filters, the N band dropped. */
  function RiekeLebofskyFilters(): seq<string> {
    ["U", "B", "V", "R", "I", "J", "H", "K", "L", "M",
     "[8.0]", "[8.5]", "[9.0]", "[9.5]", "[10.0]", "[10.5]",
     "[11.0]", "[11.5]", "[12.0]", "[12.5]", "[13.0]"]
  }

  function RiekeLebofskyWave(): seq<real> {
    [0.365, 0.445, 0.551, 0.658, 0.806, 1.17, 1.57, 2.12,
     3.40, 4.75, 8.0, 8.5, 9.0, 9.5, 10.0, 10.5, 11.0,
     11.5, 12.0, 12.5, 13.0]
  }

  function RiekeLebofskyAv(): seq<real> {
    [1.531, 1.324, 1.00, 0.748, 0.482, 0.282, 0.175, 0.112,
     0.058, 0.023, 0.02, 0.043, 0.074, 0.087, 0.083,
     0.074, 0.060, 0.047, 0.037, 0.030, 0.027]
  }

  /** The Ks filter is entry 7 of the Nishiyama table. */
  lemma NishiyamaKsIndex()
    ensures FilterIndex(NishiyamaTable().filters, "Ks") == Some(7)
  {
  }

  /** The Nishiyama table has 12 entries, increasing wavelengths, and Ks = 1 at 2.14 microns. */
  lemma NishiyamaTableNormalised()
    ensures |NishiyamaTable().wave| == 12
    ensures NormalisedAt(NishiyamaTable(), 7, 2.14)
  {
  }

  /** The Ks filter is entry 2 of the Roman-Zuniga table. */
  lemma RomanZunigaKsIndex()
    ensures FilterIndex(RomanZunigaTable().filters, "Ks") == Some(2)
  {
  }

  /** The Roman-Zuniga table has 7 entries, increasing wavelengths, and Ks = 1 at 2.164 microns. */
  lemma RomanZunigaTableNormalised()
    ensures |RomanZunigaTable().wave| == 7
    ensures NormalisedAt(RomanZunigaTable(), 2, 2.164)
  {
  }

  /** The Ks filter is entry 7 of the Westerlund 1 table. */
  lemma WesterlundKsIndex()
    ensures FilterIndex(WesterlundTable().filters, "Ks") == Some(7)
  {
  }

  /** The Westerlund 1 table has 12 entries, increasing wavelengths, and Ks = 1 at 2.14 microns. */
  lemma WesterlundTableNormalised()
    ensures |WesterlundTable().wave| == 12
    ensures NormalisedAt(WesterlundTable(), 7, 2.14)
  {
  }

  /** The K filter is entry 7 of the Rieke & Lebofsky table. */
  lemma RiekeLebofskyKIndex()
    ensures FilterIndex(RiekeLebofskyAvTable().filters, "K") == Some(7)
  {
    var f := RiekeLebofskyFilters();
    assert f[0] != "K" && f[1] != "K" && f[2] != "K" && f[3] != "K";
    assert f[4] != "K" && f[5] != "K" && f[6] != "K";
    FilterIndexAt(f, "K", 7);
  }

  /** The A/Av table has 21 entries, increasing wavelengths, V = 1 and K = 0.112 at 2.12 microns. */
  lemma RiekeLebofskyAvTableShape()
    ensures |RiekeLebofskyAvTable().wave| == 21
    ensures NormalisedAt(RiekeLebofskyAvTable(), 2, 0.551)
    ensures RiekeLebofskyAvTable().wave[7] == 2.12 && RiekeLebofskyAvTable().values[7] == 0.112
  {
    var w := RiekeLebofskyAvTable().wave;
    assert IncreasingFrom(w, 14);
    assert IncreasingFrom(w, 7);
  }

  // ---------------------------------------------------------------------
  // Renormalisation
  // ---------------------------------------------------------------------

  /** `A_Av * (1.0 / A_Av[k])`: every value divided by entry k. */
  function Renormalise(t: ExtinctionTable, k: nat): (r: ExtinctionTable)
    requires k < |t.values| && t.values[k] != 0.0
    ensures r.filters == t.filters && r.wave == t.wave && |r.values| == |t.values|
  {
    var scale := 1.0 / t.values[k];
    t.(values := seq(|t.values|, i requires 0 <= i < |t.values| => t.values[i] * scale))
  }

  /**
   * Renormalise by the entry of filter `name`: none when the filter is
   * absent (the broadcast fails) or its value is zero (every entry
   * becomes infinite or undefined).
   */
  function RenormaliseByFilter(t: ExtinctionTable, name: string): Option<ExtinctionTable>
    requires |t.filters| == |t.values|
  {
    match FilterIndex(t.filters, name)
    case None => None
    case Some(k) => if t.values[k] == 0.0 then None else Some(Renormalise(t, k))
  }

  /**
   * Renormalising keeps filters and wavelengths, makes the named entry
   * exactly 1 and keeps the ratio between any two entries.
   */
  lemma RenormaliseProperties(t: ExtinctionTable, k: nat)
    requires k < |t.values| && t.values[k] != 0.0
    ensures Renormalise(t, k).values[k] == 1.0
    ensures forall i :: 0 <= i < |t.values| ==> Renormalise(t, k).values[i] * t.values[k] == t.values[i]
    ensures forall i, j :: 0 <= i < |t.values| && 0 <= j < |t.values| && t.values[j] != 0.0 ==>
              Renormalise(t, k).values[i] / Renormalise(t, k).values[j] == t.values[i] / t.values[j]
  {
    var r := Renormalise(t, k).values;
    var c := t.values[k];
    RenormaliseScalesBack(t, k);
    forall i, j | 0 <= i < |t.values| && 0 <= j < |t.values| && t.values[j] != 0.0
      ensures r[i] / r[j] == t.values[i] / t.values[j]
    {
      RatioUnchanged(t.values[i], t.values[j], c, r[i], r[j]);
    }
  }

  /** Multiplying a renormalised entry back by the divisor gives the original entry. */
  lemma RenormaliseScalesBack(t: ExtinctionTable, k: nat)
    requires k < |t.values| && t.values[k] != 0.0
    ensures Renormalise(t, k).values[k] == 1.0
    ensures forall i :: 0 <= i < |t.values| ==> Renormalise(t, k).values[i] * t.values[k] == t.values[i]
  {
    var r := Renormalise(t, k).values;
    var c := t.values[k];
    forall i | 0 <= i < |t.values|
      ensures r[i] * c == t.values[i]
    {
      Cancel(t.values[i], c);
    }
    Cancel(1.0, c);
  }

  /** u · (1/c) · c = u. */
  lemma Cancel(u: real, c: real)
    requires c != 0.0
    ensures u * (1.0 / c) * c == u
  {
  }

  /** Dividing two quantities by the same non-zero constant keeps their ratio. */
  lemma RatioUnchanged(u: real, v: real, c: real, ru: real, rv: real)
    requires c != 0.0 && v != 0.0 && ru * c == u && rv * c == v
    ensures ru / rv == u / v
  {
    assert rv != 0.0;
    assert u / v == (ru * c) / (rv * c);
  }

  /** Renormalising by a filter succeeds exactly when the filter is present with a non-zero value. */
  lemma RenormaliseByFilterSucceeds(t: ExtinctionTable, name: string)
    requires WellFormed(t)
    ensures name in t.filters <==> FilterIndex(t.filters, name).Some?
    ensures RenormaliseByFilter(t, name).Some? <==>
              name in t.filters && t.values[FilterIndex(t.filters, name).value] != 0.0
    ensures RenormaliseByFilter(t, name).Some? ==>
              var k := FilterIndex(t.filters, name).value;
              RenormaliseByFilter(t, name).value == Renormalise(t, k) &&
              NormalisedAt(Renormalise(t, k), k, t.wave[k])
  {
    FilterIndexSpec(t.filters, name);
    if RenormaliseByFilter(t, name).Some? {
      RenormaliseProperties(t, FilterIndex(t.filters, name).value);
    }
  }

  /** `A_Ak = A_Av * Av_Ak` with Av_Ak taken from the 'K' entry. */
  function RiekeLebofskyTable(): Option<ExtinctionTable> {
    RenormaliseByFilter(RiekeLebofskyAvTable(), "K")
  }

  /** The renormalised table exists, has 21 entries, increasing wavelengths, and K (entry 7, 2.12 microns) is exactly 1. */
  lemma RiekeLebofskyTableNormalised()
    ensures RiekeLebofskyTable().Some?
    ensures |RiekeLebofskyTable().value.wave| == 21
    ensures NormalisedAt(RiekeLebofskyTable().value, 7, 2.12)
  {
    RiekeLebofskyAvTableShape();
    RiekeLebofskyKIndex();
    RenormaliseByFilterSucceeds(RiekeLebofskyAvTable(), "K");
  }

  // ---------------------------------------------------------------------
  // The laws
  // ---------------------------------------------------------------------

  /** `splev(w, splrep(wave, values, k=3, s=0))`, left uninterpreted. */
  type Interpolant = (seq<real>, seq<real>, real) -> real

  /** With smoothing 0 the spline passes through every node. */
  predicate Interpolates(interp: Interpolant, xs: seq<real>, ys: seq<real>) {
    |xs| == |ys| && forall i :: 0 <= i < |xs| ==> interp(xs, ys, xs[i]) == ys[i]
  }

  /** `AKs * splev(wavelength, spline)` at every requested wavelength. */
  function TableLaw(t: ExtinctionTable, wavelength: seq<real>, aks: real, interp: Interpolant): (r: seq<real>)
    ensures |r| == |wavelength|
  {
    seq(|wavelength|, i requires 0 <= i < |wavelength| => aks * interp(t.wave, t.values, wavelength[i]))
  }

  /** A table law is AKs times its AKs = 1 curve. */
  lemma TableLawScales(t: ExtinctionTable, wavelength: seq<real>, aks: real, interp: Interpolant)
    ensures forall i :: 0 <= i < |wavelength| ==>
              TableLaw(t, wavelength, aks, interp)[i] == aks * TableLaw(t, wavelength, 1.0, interp)[i]
  {
  }

  /**
   * If the spline passes through its nodes, the law at the wavelength of
   * a node with value 1 is exactly AKs.
   */
  lemma TableLawAnchor(t: ExtinctionTable, k: nat, at: real,
                       wavelength: seq<real>, aks: real, interp: Interpolant)
    requires NormalisedAt(t, k, at) && Interpolates(interp, t.wave, t.values)
    ensures forall i :: 0 <= i < |wavelength| && wavelength[i] == at ==>
              TableLaw(t, wavelength, aks, interp)[i] == aks
  {
    assert interp(t.wave, t.values, t.wave[k]) == 1.0;
  }

  /** `nishiyama09(wavelength, AKs)`. */
  function Nishiyama09(wavelength: seq<real>, aks: real, interp: Interpolant): seq<real> {
    TableLaw(NishiyamaTable(), wavelength, aks, interp)
  }

  /** `romanzuniga07(wavelength, AKs)`. */
  function RomanZuniga07(wavelength: seq<real>, aks: real, interp: Interpolant): seq<real> {
    TableLaw(RomanZunigaTable(), wavelength, aks, interp)
  }

  /** `westerlund1(wavelength, AKs)`. */
  function Westerlund1(wavelength: seq<real>, aks: real, interp: Interpolant): seq<real> {
    TableLaw(WesterlundTable(), wavelength, aks, interp)
  }

  /** `RiekeLebofsky(wavelength, AKs)`, through the renormalised table; none if it could not be built. */
  function RiekeLebofsky(wavelength: seq<real>, aks: real, interp: Interpolant): Option<seq<real>> {
    match RiekeLebofskyTable()
    case None => None
    case Some(t) => Some(TableLaw(t, wavelength, aks, interp))
  }

  /**
   * Each law returns one value per wavelength, AKs times its AKs = 1
   * value, and exactly AKs at its Ks (or K) wavelength when the spline
   * interpolates its table.
   */
  lemma Nishiyama09Law(wavelength: seq<real>, aks: real, interp: Interpolant)
    ensures |Nishiyama09(wavelength, aks, interp)| == |wavelength|
    ensures forall i :: 0 <= i < |wavelength| ==>
              Nishiyama09(wavelength, aks, interp)[i] == aks * Nishiyama09(wavelength, 1.0, interp)[i]
    ensures Interpolates(interp, NishiyamaTable().wave, NishiyamaTable().values) ==>
              forall i :: 0 <= i < |wavelength| && wavelength[i] == 2.14 ==> Nishiyama09(wavelength, aks, interp)[i] == aks
  {
    NishiyamaTableNormalised();
    TableLawScales(NishiyamaTable(), wavelength, aks, interp);
    if Interpolates(interp, NishiyamaTable().wave, NishiyamaTable().values) {
      TableLawAnchor(NishiyamaTable(), 7, 2.14, wavelength, aks, interp);
    }
  }

  lemma RomanZuniga07Law(wavelength: seq<real>, aks: real, interp: Interpolant)
    ensures |RomanZuniga07(wavelength, aks, interp)| == |wavelength|
    ensures forall i :: 0 <= i < |wavelength| ==>
              RomanZuniga07(wavelength, aks, interp)[i] == aks * RomanZuniga07(wavelength, 1.0, interp)[i]
    ensures Interpolates(interp, RomanZunigaTable().wave, RomanZunigaTable().values) ==>
              forall i :: 0 <= i < |wavelength| && wavelength[i] == 2.164 ==> RomanZuniga07(wavelength, aks, interp)[i] == aks
  {
    RomanZunigaTableNormalised();
    TableLawScales(RomanZunigaTable(), wavelength, aks, interp);
    if Interpolates(interp, RomanZunigaTable().wave, RomanZunigaTable().values) {
      TableLawAnchor(RomanZunigaTable(), 2, 2.164, wavelength, aks, interp);
    }
  }

  lemma Westerlund1Law(wavelength: seq<real>, aks: real, interp: Interpolant)
    ensures |Westerlund1(wavelength, aks, interp)| == |wavelength|
    ensures forall i :: 0 <= i < |wavelength| ==>
              Westerlund1(wavelength, aks, interp)[i] == aks * Westerlund1(wavelength, 1.0, interp)[i]
    ensures Interpolates(interp, WesterlundTable().wave, WesterlundTable().values) ==>
              forall i :: 0 <= i < |wavelength| && wavelength[i] == 2.14 ==> Westerlund1(wavelength, aks, interp)[i] == aks
  {
    WesterlundTableNormalised();
    TableLawScales(WesterlundTable(), wavelength, aks, interp);
    if Interpolates(interp, WesterlundTable().wave, WesterlundTable().values) {
      TableLawAnchor(WesterlundTable(), 7, 2.14, wavelength, aks, interp);
    }
  }

  lemma RiekeLebofskyLaw(wavelength: seq<real>, aks: real, interp: Interpolant)
    ensures RiekeLebofsky(wavelength, aks, interp).Some?
    ensures |RiekeLebofsky(wavelength, aks, interp).value| == |wavelength|
    ensures forall i :: 0 <= i < |wavelength| ==>
              RiekeLebofsky(wavelength, aks, interp).value[i] == aks * RiekeLebofsky(wavelength, 1.0, interp).value[i]
  {
    RiekeLebofskyTableNormalised();
    TableLawScales(RiekeLebofskyTable().value, wavelength, aks, interp);
  }

  /** The Rieke & Lebofsky law is exactly AKs at 2.12 microns when the spline interpolates its renormalised table. */
  lemma RiekeLebofskyKAnchor(wavelength: seq<real>, aks: real, interp: Interpolant)
    requires RiekeLebofskyTable().Some?
    requires Interpolates(interp, RiekeLebofskyTable().value.wave, RiekeLebofskyTable().value.values)
    ensures forall i :: 0 <= i < |wavelength| && wavelength[i] == 2.12 ==> RiekeLebofsky(wavelength, aks, interp).value[i] == aks
  {
    RiekeLebofskyTableNormalised();
    TableLawAnchor(RiekeLebofskyTable().value, 7, 2.12, wavelength, aks, interp);
  }
}
