# PopStar atmospheres and reddening laws in Dafny

This project models two modules of PopStar, a Python package for synthetic
stellar populations.

`popstar/atmospheres.py` selects a stellar atmosphere. There is one adapter
per model family: Kurucz 1993, Castelli & Kurucz 2004, NextGen, AMES-Dusty
and PHOENIX BT-Settl. Each adapter asks the pysynphot catalog (`Icat`) for a
spectrum under a fixed library id. When every flux sample is zero, it reports
that the model was not found. `get_merged_atmosphere` picks one family from
the temperature and the surface gravity. The module also has helpers that
build the `catalog.fits` index files:

- `orgnaize_PHOENIX_atmospheres` names one output file per temperature of the
  Husser et al. 2013 grid;
- `make_PHOENIX_catalog` writes one row per (model file, log g column);
- `make_CMFGEN_catalog` writes one row per CMFGEN model.

`popstar/reddening.py` defines five extinction laws:

- Nishiyama et al. 2009;
- Cardelli et al. 1989;
- Román-Zúñiga et al. 2007;
- Rieke & Lebofsky 1985;
- Westerlund 1 (Lu et al. 2015).

Each law gives A(λ) for a requested A_Ks. Each law object lays a wavelength
grid in microns and evaluates its law there for A_Ks = 1. It then converts
the grid to ångström and stores grid, curve, name and reference.

The Dafny modules:

- `common.dfy`: `Option` and `Result`.
- `text.dfy`: the string formats the catalog writers use (`'{0:05d}'`,
  `'{0:5.0f}'`, `'{0:2.1f}'`, `'{0:3.2f}'`), `float()` on those strings, and
  `str.split`.
- `atmospheres.dfy`: the adapters and the merged dispatch. The catalog
  lookup is a function parameter.
- `catalogs.dfy`: the PHOENIX temperature grid and file names, and the
  PHOENIX and CMFGEN catalog builders. Both builders are imperative loops
  proved against functional specifications.
- `cardelli.dfy`: the Cardelli law as the array routine it is. Its loops
  are proved equal to a functional definition `CardelliCurve`. The
  properties of the law are proved about that definition.
- `spline_laws.dfy`: the four tabulated laws. Each is a table of
  (filter, wavelength, A/A_K) interpolated by a cubic spline. The spline is
  a function parameter.
- `red_law_curves.dfy`: `np.arange` and the five law objects as a class
  with one constructor per law.

## Model

| member | source | states |
|---|---|---|
| Atmospheres.LibraryId | popstar/atmospheres.py:24 | the library id each adapter passes to `Icat`: "k93models", "ck04models", "nextgen", "AMESdusty", "phoenix" |
| Atmospheres.LibraryIdInjective | popstar/atmospheres.py:7-114 | two families share a library id iff they are the same family, so no two adapters read the same models |
| Atmospheres.NoNonZeroIndexIffAllZero | popstar/atmospheres.py:27-28 | `np.where(flux != 0)` is empty exactly when every flux sample is zero |
| Atmospheres.HasNonZeroFlux | popstar/atmospheres.py:27-28 | the adapters' "found" condition: some flux sample is non-zero, the negation of `len(idx) == 0`; tied to the index list by `NoNonZeroIndexIffAllZero` |
| Atmospheres.NonZeroIndicesFrom | popstar/atmospheres.py:27 | `np.where(flux != 0)[0]` from position `from` on: every index it holds is in range with a non-zero sample, every such index is in it, and it is strictly ascending |
| Atmospheres.NonZeroIndices | popstar/atmospheres.py:27 | `np.where(flux != 0)[0]`: the ascending indices of all non-zero samples (`NonZeroIndicesFrom` from 0) |
| Atmospheres.FetchAtmosphere | popstar/atmospheres.py:24-34 | the spectrum returned is the catalog's answer for (id, temperature, metallicity, gravity), in the catalog's argument order; it is flagged not found iff no flux sample is non-zero |
| Atmospheres.GetKuruczAtmosphere | popstar/atmospheres.py:7-34 | returns the `k93models` spectrum unchanged; not found iff all flux is zero |
| Atmospheres.GetCastelliAtmosphere | popstar/atmospheres.py:36-60 | returns the `ck04models` spectrum unchanged; not found iff all flux is zero |
| Atmospheres.GetNextGenAtmosphere | popstar/atmospheres.py:62-78 | returns the `nextgen` spectrum unchanged; not found iff all flux is zero |
| Atmospheres.GetAmesDustyAtmosphere | popstar/atmospheres.py:80-96 | returns the `AMESdusty` spectrum unchanged; not found iff all flux is zero |
| Atmospheres.GetPhoenixAtmosphere | popstar/atmospheres.py:98-114 | returns the `phoenix` spectrum unchanged; not found iff all flux is zero |
| Atmospheres.MergedFamily | popstar/atmospheres.py:161-182 | a family is always chosen: PHOENIX below 4000 K, PHOENIX for 4000–7000 K with log g < 4, NextGen for 4000–7000 K with log g ≥ 4, Castelli & Kurucz from 7000 K |
| Atmospheres.MergedFamilyRange | popstar/atmospheres.py:161-182 | only PHOENIX, NextGen or Castelli & Kurucz is reachable; Kurucz 1993 and AMES-Dusty never are |
| Atmospheres.GetMergedAtmosphere | popstar/atmospheres.py:161-182 | never falls through to `None`; in each of the four regions it returns exactly what the chosen family's adapter returns for the same arguments |
| Text.DecimalDigitsValue | popstar/atmospheres.py:415 | reading back the decimal spelling of n gives n |
| Text.ParseDecimal | popstar/atmospheres.py:415 | the model of `float()` for file-name temperatures: accepts leading blanks followed by one or more digits and nothing else, giving their value; `None` (the `ValueError`) for every other text |
| Text.ParseTenths | popstar/atmospheres.py:417 | the model of `float()` for column log g values: accepts leading blanks, one or more digits, a point and exactly one digit, giving the value in tenths; `None` for every other text |
| Text.FormatZeroPadded | popstar/atmospheres.py:375 | `'{0:05d}'`: the decimal digits of n, left-padded with zeros to the width; read back by `ZeroPaddedRoundTrip` |
| Text.FormatFixed0 | popstar/atmospheres.py:418 | `'{0:5.0f}'` of an integral value: its digits right-aligned in the width with blanks; read back by `Fixed0RoundTrip` |
| Text.FormatFixed1 | popstar/atmospheres.py:418 | `'{0:2.1f}'` of a value in tenths: integer part, point, tenths digit, right-aligned with blanks; read back by `Fixed1RoundTrip` |
| Text.FormatFixed2 | popstar/atmospheres.py:300 | `'{0:3.2f}'` of a value in hundredths: integer part, point, two digits, right-aligned with blanks |
| Text.Split | popstar/atmospheres.py:414 | `str.split` on one character: at least one field, no field contains the separator, and joining the fields with it gives back the text |
| Text.LeadingZerosValue | popstar/atmospheres.py:375 | leading zeros do not change the value of a digit string |
| Text.ZerosValue | popstar/atmospheres.py:375 | (proof helper) a run of zeros is a digit string of value 0 |
| Text.TrimBlankPadding | popstar/atmospheres.py:418 | removing the blank padding of a width format gives back the unpadded text |
| Text.ZeroPaddedRoundTrip | popstar/atmospheres.py:375 | `float('{0:05d}'.format(n)) == n` for every width |
| Text.Fixed0RoundTrip | popstar/atmospheres.py:418 | `'{0:5.0f}'` of an integer temperature reads back as that temperature |
| Text.Fixed1RoundTrip | popstar/atmospheres.py:371 | `'{0:2.1f}'` of a log g in tenths reads back as the same tenths |
| Text.PointTextRoundTrip | popstar/atmospheres.py:371 | the text `q.r` starts with a digit and reads back as 10q + r tenths |
| Text.IndexOfAfter | popstar/atmospheres.py:414 | the first separator in `a + sep + b` is at \|a\| when `a` has none |
| Text.SplitAfter | popstar/atmospheres.py:414 | `split` of `a + sep + b` is `a` followed by the fields of `b` when `a` has no separator |
| Catalogs.IntRange | popstar/atmospheres.py:349-350 | `np.arange` on integers: empty iff start ≥ stop; element i is start + i·step and below stop; no further step fits |
| Catalogs.CeilingDivision | popstar/atmospheres.py:349-350 | (proof helper) ⌈d/step⌉ steps cover d and one step fewer does not |
| Catalogs.PhoenixTemperatureGrid | popstar/atmospheres.py:348-350 | the Husser grid has 74 temperatures: 2300–7000 K by 100 K, then 7000–12000 K by 200 K |
| Catalogs.GridRepeatsOnlySevenThousand | popstar/atmospheres.py:349-350 | the only repeated temperature in the grid is 7000 K, at positions 47 and 48 |
| Catalogs.PaddedNumericText | popstar/atmospheres.py:418 | padding numeric text with blanks or digits keeps it numeric |
| Catalogs.ZeroPaddedNumeric | popstar/atmospheres.py:375 | `'{0:05d}'` output consists of digits only |
| Catalogs.Fixed0Numeric | popstar/atmospheres.py:418 | `'{0:5.0f}'` output holds only digits, blanks and points |
| Catalogs.Fixed1Numeric | popstar/atmospheres.py:418 | `'{0:2.1f}'` output holds only digits, blanks and points |
| Catalogs.Fixed2Numeric | popstar/atmospheres.py:300 | `'{0:3.2f}'` output holds only digits, blanks and points |
| Catalogs.PhoenixFileName | popstar/atmospheres.py:375 | the output file name `phoenixm00_<T:05d>.fits`; read back by `FileNameRoundTrip`, injective by `FileNameInjective` |
| Catalogs.HusserPattern | popstar/atmospheres.py:356 | the glob `lte<T:05d>-*-HiRes.fits` for one grid temperature |
| Catalogs.FileTemperature | popstar/atmospheres.py:414-415 | `float(name.split('_')[1][:-5])`: `None` when the name has no `_` or the field does not read; inverse of `PhoenixFileName` by `FileNameRoundTrip` |
| Catalogs.GravityColumn | popstar/atmospheres.py:371 | the flux column name `g<logg:2.1f>` |
| Catalogs.ColumnGravity | popstar/atmospheres.py:417 | `float(j[1:])` on a column name, in tenths; inverse of `GravityColumn` by `GravityColumnRoundTrip` |
| Catalogs.PhoenixIndexKey | popstar/atmospheres.py:418 | the PHOENIX INDEX key `<T:5.0f>,0.0,<logg:2.1f>`; its fields are recovered by `PhoenixIndexKeyFields` |
| Catalogs.CmfgenIndexKey | popstar/atmospheres.py:300 | the CMFGEN INDEX key `<T:5.0f>,0.0,<logg:3.2f>`; its fields are recovered by `CmfgenIndexKeyFields` |
| Catalogs.PhoenixEntry | popstar/atmospheres.py:419 | the FILENAME entry `path_to_dir + file + '[' + column + ']'` |
| Catalogs.FileNameRoundTrip | popstar/atmospheres.py:414-415 | the temperature `make_PHOENIX_catalog` parses from `phoenixm00_<T:05d>.fits` is T |
| Catalogs.GravityColumnRoundTrip | popstar/atmospheres.py:417 | the log g parsed from column `g<logg:2.1f>` (dropping the `g`) is the log g written |
| Catalogs.NoCommaIn | popstar/atmospheres.py:418 | formatted numbers contain no comma, so they cannot break the comma-separated index key |
| Catalogs.KeyLayout | popstar/atmospheres.py:418 | a key `a,0.0,c` with numeric a and c splits into exactly the fields a, "0.0", c |
| Catalogs.PhoenixIndexKeyFields | popstar/atmospheres.py:418 | a PHOENIX index key has three fields: a temperature that reads back, metallicity "0.0", and a log g that reads back |
| Catalogs.CmfgenIndexKeyFields | popstar/atmospheres.py:300 | a CMFGEN index key has three fields: a temperature that reads back, metallicity "0.0", and the `'{0:3.2f}'` log g |
| Catalogs.FileNameInjective | popstar/atmospheres.py:375 | two temperatures give the same output file name iff they are equal |
| Catalogs.NamesPerTemperature | popstar/atmospheres.py:355-376 | the loop over the temperatures yields, in order, one glob pattern and one output name per temperature |
| Catalogs.OrganizePhoenixNames | popstar/atmospheres.py:349-376 | one glob pattern and one output name per grid temperature (74); each name reads back as its temperature; two names coincide exactly for positions 47 and 48 (7000 K), whose second file overwrites the first |
| Catalogs.FileRowsFailurePersists | popstar/atmospheres.py:416-417 | once a log g column fails to parse, the rows of that file fail with that error whatever columns follow |
| Catalogs.FileRows | popstar/atmospheres.py:416-422 | the rows the inner loop appends for one file, column by column in order, or the `BadGravity` error of the first column that does not read; built by `AppendFileRows` |
| Catalogs.CatalogRows | popstar/atmospheres.py:412-422 | the rows the outer loop appends, file by file in order, or the error of the first file whose temperature or columns do not read; built by `MakePhoenixCatalog` |
| Catalogs.PhoenixCatalog | popstar/atmospheres.py:402-424 | the catalog of `make_PHOENIX_catalog`: `NoModelFiles` for an empty listing (`files[0]` raises), otherwise `CatalogRows` over the first file's columns after the wavelength column |
| Catalogs.CatalogRowsFailurePersists | popstar/atmospheres.py:412-422 | once a file fails, the whole catalog fails with that error |
| Catalogs.FileRowsSnoc | popstar/atmospheres.py:416-422 | one more readable column appends exactly one key and one file name |
| Catalogs.CatalogRowsSnoc | popstar/atmospheres.py:412-422 | one more readable file appends exactly that file's rows |
| Catalogs.CatalogRowsBadFile | popstar/atmospheres.py:414-415 | a file name whose temperature does not parse stops the catalog with that file as the error |
| Catalogs.FileRowsBadColumn | popstar/atmospheres.py:416-417 | a column whose log g does not parse stops that file's rows with that column as the error |
| Catalogs.CatalogRowsFileFails | popstar/atmospheres.py:412-422 | a file whose rows fail stops the whole catalog with the same error |
| Catalogs.AppendFileRows | popstar/atmospheres.py:416-422 | the inner loop over the gravity columns of one file builds exactly `FileRows`: one key and one entry per column, or the first unreadable column |
| Catalogs.MakePhoenixCatalog | popstar/atmospheres.py:386-430 | the nested loops build exactly the catalog `PhoenixCatalog` specifies: no files is an error (`files[0]`), and the first parse failure is reported |
| Catalogs.AllReadSnoc | popstar/atmospheres.py:412-417 | every name of `names` parses iff every name of its front parses and the last one does |
| Catalogs.FileRowsSucceed | popstar/atmospheres.py:416-422 | a file's rows are built iff every log g column parses, and then there is one row per column |
| Catalogs.FileRowAt | popstar/atmospheres.py:418-419 | row j of a file is the key (T, log g of column j) and the name `path + file + '[' + column + ']'` |
| Catalogs.MulStep | popstar/atmospheres.py:412-416 | (proof helper) (a + 1)·m = a·m + m: one more file adds one block of rows |
| Catalogs.MulMonotone | popstar/atmospheres.py:412-416 | (proof helper) row blocks grow with the file count |
| Catalogs.BlockBound | popstar/atmospheres.py:412-416 | the row position i·m + j of file i and column j lies inside the n·m rows |
| Catalogs.CatalogRowsSucceed | popstar/atmospheres.py:412-422 | the catalog is built iff every file's temperature and every column's log g parse; it then has \|files\|·\|columns\| rows |
| Catalogs.CatalogRowAt | popstar/atmospheres.py:412-422 | row i·\|columns\| + j holds the key and file name of file i and column j: files outer, columns inner |
| Catalogs.PhoenixCatalogSucceeds | popstar/atmospheres.py:402-422 | the catalog exists iff there is a file and all names and columns after the wavelength column parse; it then has \|files\|·(\|keys\| − 1) rows |
| Catalogs.MakeCmfgenCatalog | popstar/atmospheres.py:291-309 | one row per model: FILENAME is the model name, INDEX is `'{T:5.0f},0.0,{logg:3.2f}'` |
| Cardelli.RegimeOf | popstar/reddening.py:155-186 | the four wavenumber masks (x ≤ 1.1, 1.1 < x ≤ 3.3, 3.3 < x < 5.9, x ≥ 5.9) partition the reals, so each coefficient is written by exactly one branch |
| Cardelli.InfraredCoefficients | popstar/reddening.py:155-157 | a = 0.574·x^1.61, b = −0.527·x^1.61 for x ≤ 1.1, with the power a parameter; written into the arrays by `FillInfrared` |
| Cardelli.OpticalCoefficients | popstar/reddening.py:161-170 | the two seventh-degree polynomials in y = x − 1.82 with the published coefficients; a = 1, b = 0 at y = 0 by `OpticalPivot` |
| Cardelli.UltravioletCoefficients | popstar/reddening.py:174-177 | the Lorentzian-type formulas for 3.3 < x < 5.9; both denominators are at least 0.341 and 0.263 (`ShiftedSquare`) |
| Cardelli.FarUltravioletCoefficients | popstar/reddening.py:181-186 | the ultraviolet formulas plus the cubic corrections in x − 5.9 for x ≥ 5.9; equal to the ultraviolet ones at 5.9 by `UltravioletBranchesMeet` |
| Cardelli.CoefficientsAt | popstar/reddening.py:155-186 | the (a, b) the four mask assignments leave at wavenumber x, chosen by `RegimeOf` |
| Cardelli.ExtinctionCurve | popstar/reddening.py:189 | `a + b/Rv` at every point, one value per wavenumber |
| Cardelli.Normalised | popstar/reddening.py:194-199 | `extinction * (1/extinction[k]) * AKs`, one value per point; AKs at k by `NormalisedAnchor`, linear in AKs by `NormalisedScales` |
| Cardelli.CardelliCurve | popstar/reddening.py:131-201 | the law as a function: `NoWavelengths` for no input, then the too-long and too-short range errors, then `NonFinite` for Rv = 0 or a zero Ks extinction, else the normalised curve; computed by `Cardelli`, characterised by `CardelliDomain`, `CardelliKsAnchor` and `CardelliScalesWithAks` |
| Cardelli.PowOfZero | popstar/reddening.py:163-170 | (proof helper) a positive power of zero is zero |
| Cardelli.OpticalPivot | popstar/reddening.py:151-170 | at x = 1.82 (y = 0) the optical polynomials give a = 1, b = 0, so A(λ)/A(V) = 1 there for any Rv and any x^1.61 function |
| Cardelli.UltravioletBranchesMeet | popstar/reddening.py:174-186 | the ultraviolet and far-ultraviolet formulas agree at x = 5.9, which the far-ultraviolet branch owns |
| Cardelli.InDomainRange | popstar/reddening.py:136-145 | an accepted wavelength is non-zero with wavenumber in [0.3, 8.0] |
| Cardelli.NearestKs | popstar/reddening.py:192 | returns the first index whose wavenumber is nearest 0.46 (Ks) |
| Cardelli.NearestKsUnique | popstar/reddening.py:192 | the "first nearest" index is unique |
| Cardelli.Wavenumbers | popstar/reddening.py:136 | x has the wavelength's length and x[i]·λ[i] = 1 |
| Cardelli.Cardelli | popstar/reddening.py:131-201 | the array routine returns exactly `CardelliCurve` of the input |
| Cardelli.InvertWavelengths | popstar/reddening.py:136-145 | computes x = 1/λ and reports whether some x < 0.3 (too long) and whether some x > 8.0 or λ = 0 (too short) |
| Cardelli.FillInfrared | popstar/reddening.py:155-157 | sets a, b at every x ≤ 1.1 to 0.574·x^1.61, −0.527·x^1.61 and leaves the rest |
| Cardelli.FillOptical | popstar/reddening.py:161-170 | sets a, b at every 1.1 < x ≤ 3.3 to the degree-7 polynomials in y = x − 1.82 and leaves the rest |
| Cardelli.FillUltraviolet | popstar/reddening.py:174-177 | sets a, b at every 3.3 < x < 5.9 to the ultraviolet formulas and leaves the rest |
| Cardelli.FillFarUltraviolet | popstar/reddening.py:181-186 | sets a, b at every x ≥ 5.9 to the far-ultraviolet formulas; after all four stages a, b are the coefficients of each point's regime |
| Cardelli.ExtinctionOf | popstar/reddening.py:189 | the extinction array is a + b/Rv at every point |
| Cardelli.NearestIndex | popstar/reddening.py:192 | the scan finds `NearestKs` of x |
| Cardelli.Normalise | popstar/reddening.py:193-199 | output is extinction · (1/extinction[k]) · AKs at every point |
| Cardelli.ScaledCopy | popstar/reddening.py:196 | `extinction * Av_Aks` is a new array holding every entry times the factor |
| Cardelli.ScaleInPlace | popstar/reddening.py:199 | `output *= AKs` multiplies every entry in place |
| Cardelli.CardelliDomain | popstar/reddening.py:136-145 | a wavelength out of range gives the too-long or too-short error; a success has the input's length with every wavelength in range; an in-range, non-empty input with Rv ≠ 0 fails only for a non-finite value |
| Cardelli.NormalisedAnchor | popstar/reddening.py:192-199 | the normalised curve equals AKs at the Ks index |
| Cardelli.NormalisedScales | popstar/reddening.py:196-199 | normalising with AKs is normalising with 1 and then scaling by AKs |
| Cardelli.CardelliKsAnchor | popstar/reddening.py:192-201 | on success, the curve at the sample nearest Ks is AKs |
| Cardelli.CardelliScalesWithAks | popstar/reddening.py:198-199 | the curve for any AKs is the AKs = 1 curve times AKs, errors included |
| SplineLaws.IncreasingPairwise | popstar/reddening.py:72 | wavelengths that increase from each one to the next increase between any two positions, as the spline fit needs |
| SplineLaws.NishiyamaTable | popstar/reddening.py:61-63 | the 12 HST + VISTA filters, wavelengths and A/AKs values; increasing and 1 at Ks by `NishiyamaTableNormalised` |
| SplineLaws.RomanZunigaTable | popstar/reddening.py:234-236 | the 7 filters, wavelengths and A/AKs values; increasing and 1 at Ks by `RomanZunigaTableNormalised` |
| SplineLaws.WesterlundTable | popstar/reddening.py:380-396 | the 12 filters and wavelengths with the Westerlund 1 A/AKs values; increasing and 1 at Ks by `WesterlundTableNormalised` |
| SplineLaws.RiekeLebofskyFilters | popstar/reddening.py:301-303 | the 21 Rieke & Lebofsky filter names |
| SplineLaws.RiekeLebofskyWave | popstar/reddening.py:310-312 | the 21 wavelengths taken from the Nishiyama et al. 2009 plot |
| SplineLaws.RiekeLebofskyAv | popstar/reddening.py:313-315 | the 21 A/Av values |
| SplineLaws.RiekeLebofskyAvTable | popstar/reddening.py:301-315 | the Rieke & Lebofsky A/Av table; its shape is `RiekeLebofskyAvTableShape` |
| SplineLaws.FilterIndex | popstar/reddening.py:317 | a found filter index lies inside the filter list |
| SplineLaws.FilterIndexFromSpec | popstar/reddening.py:317 | searching from `from` finds the first match at or after `from`, or reports none |
| SplineLaws.FilterIndexSpec | popstar/reddening.py:317 | a filter is found iff it is in the list, and the index is its first occurrence |
| SplineLaws.FilterIndexAt | popstar/reddening.py:317 | a name at k and nowhere before is found at k |
| SplineLaws.NishiyamaKsIndex | popstar/reddening.py:61 | Ks is the eighth filter (index 7) of the Nishiyama table |
| SplineLaws.NishiyamaTableNormalised | popstar/reddening.py:61-63 | the Nishiyama table has 12 strictly increasing wavelengths and A/AKs = 1 at Ks (2.14 µm) |
| SplineLaws.RomanZunigaKsIndex | popstar/reddening.py:234 | Ks is the third filter (index 2) of the Román-Zúñiga table |
| SplineLaws.RomanZunigaTableNormalised | popstar/reddening.py:234-236 | 7 strictly increasing wavelengths, A/AKs = 1 at Ks (2.164 µm) |
| SplineLaws.WesterlundKsIndex | popstar/reddening.py:380 | Ks is index 7 of the Westerlund 1 table |
| SplineLaws.WesterlundTableNormalised | popstar/reddening.py:380-396 | 12 strictly increasing wavelengths, A/AKs = 1 at Ks (2.14 µm) |
| SplineLaws.RiekeLebofskyKIndex | popstar/reddening.py:301-303 | K is index 7 of the Rieke & Lebofsky filters |
| SplineLaws.RiekeLebofskyAvTableShape | popstar/reddening.py:301-315 | 21 strictly increasing wavelengths, normalised to V (A/Av = 1 at 0.551 µm), with A_K/Av = 0.112 at 2.12 µm |
| SplineLaws.Renormalise | popstar/reddening.py:318-321 | dividing by the value at k keeps filters and wavelengths |
| SplineLaws.RenormaliseProperties | popstar/reddening.py:318-321 | after dividing by the value at k, that value is 1, each new value times the old value at k is the old value, and ratios are unchanged |
| SplineLaws.RenormaliseScalesBack | popstar/reddening.py:318-321 | the K entry becomes exactly 1, and each new value times the old K value is the old value |
| SplineLaws.RatioUnchanged | popstar/reddening.py:321 | (proof helper) scaling two values by the same factor keeps their ratio |
| SplineLaws.RenormaliseByFilterSucceeds | popstar/reddening.py:317-321 | renormalising at a filter succeeds iff the filter is present with a non-zero value; the result is then normalised to 1 at that filter's wavelength |
| SplineLaws.RenormaliseByFilter | popstar/reddening.py:317-321 | renormalise at the first entry of the named filter; none when the filter is absent or its value is zero; characterised by `RenormaliseByFilterSucceeds` |
| SplineLaws.RiekeLebofskyTable | popstar/reddening.py:317-321 | the A/AK table: the A/Av table renormalised at 'K'; it exists and is 1 at K by `RiekeLebofskyTableNormalised` |
| SplineLaws.RiekeLebofskyTableNormalised | popstar/reddening.py:313-321 | the A/AK table exists, has 21 points and is 1 at K (2.12 µm) |
| SplineLaws.TableLaw | popstar/reddening.py:72-75 | the law yields one value per requested wavelength |
| SplineLaws.TableLawScales | popstar/reddening.py:75 | each value is AKs times the AKs = 1 value |
| SplineLaws.TableLawAnchor | popstar/reddening.py:72-75 | with an interpolating spline, the law at the normalising wavelength is AKs |
| SplineLaws.Nishiyama09Law | popstar/reddening.py:41-97 | one value per wavelength, linear in AKs, and AKs at 2.14 µm |
| SplineLaws.Nishiyama09 | popstar/reddening.py:72-75 | `AKs * splev(wavelength, splrep(wave, A_AKs))` over the Nishiyama table; its properties are `Nishiyama09Law` |
| SplineLaws.RomanZuniga07 | popstar/reddening.py:240-243 | the same over the Román-Zúñiga table; its properties are `RomanZuniga07Law` |
| SplineLaws.Westerlund1 | popstar/reddening.py:394-403 | the same over the Westerlund 1 table; its properties are `Westerlund1Law` |
| SplineLaws.RiekeLebofsky | popstar/reddening.py:317-327 | the same over the renormalised Rieke & Lebofsky table, none when that table cannot be built; its properties are `RiekeLebofskyLaw` |
| SplineLaws.RomanZuniga07Law | popstar/reddening.py:233-265 | one value per wavelength, linear in AKs, and AKs at 2.164 µm |
| SplineLaws.Westerlund1Law | popstar/reddening.py:372-425 | one value per wavelength, linear in AKs, and AKs at 2.14 µm |
| SplineLaws.RiekeLebofskyLaw | popstar/reddening.py:294-341 | the law always yields a curve, one value per wavelength, linear in AKs |
| SplineLaws.RiekeLebofskyKAnchor | popstar/reddening.py:317-327 | with an interpolating spline, the law at 2.12 µm is AKs |
| RedLawCurves.Arange | popstar/reddening.py:25 | `np.arange` has ⌈(stop − start)/step⌉ points |
| RedLawCurves.ArangeBounds | popstar/reddening.py:25 | every grid point is start + i·step and lies in [start, stop); one more step would reach stop |
| RedLawCurves.CeilingBounds | popstar/reddening.py:25 | (proof helper) the point count ⌈q⌉ is at least q and less than q + 1 |
| RedLawCurves.ConvertToAngstrom | popstar/reddening.py:32 | `wave *= 10 ** 4` multiplies every element by 10⁴ in place |
| RedLawCurves.GridArray | popstar/reddening.py:25 | a fresh array holding the grid |
| RedLawCurves.CardelliGridInDomain | popstar/reddening.py:114-145 | the Cardelli grid has 2500 points, all inside the law's wavenumber range |
| RedLawCurves.WavenumberInRange | popstar/reddening.py:139-145 | 0.5 ≤ λ < 3.0 µm passes both range checks |
| RedLawCurves.CardelliGridAccepted | popstar/reddening.py:112-128 | on its own grid the Cardelli law is never refused as out of range |
| RedLawCurves.RedLawCurve.Nishiyama09 | popstar/reddening.py:23-38 | grid 0.5–8.0 µm by 0.001, stored in ångström; curve is the Nishiyama law at AKs = 1 on the micron grid; name and reference |
| RedLawCurves.RedLawCurve.Cardelli89 | popstar/reddening.py:112-128 | grid 0.5–3.0 µm by 0.001 in ångström; curve is the Cardelli routine's result at AKs = 1 (absent if it fails); name and reference |
| RedLawCurves.RedLawCurve.RomanZuniga07 | popstar/reddening.py:215-230 | grid 1.0–8.0 µm by 0.01 in ångström; the Román-Zúñiga law at AKs = 1 |
| RedLawCurves.RedLawCurve.RiekeLebofsky | popstar/reddening.py:276-291 | grid 0.365–13.0 µm by 0.001 in ångström; the Rieke & Lebofsky law at AKs = 1 |
| RedLawCurves.RedLawCurve.Westerlund1 | popstar/reddening.py:354-369 | grid 0.5–8.0 µm by 0.001 in ångström; the Westerlund 1 law at AKs = 1 |
| RedLawCurves.GridLengths | popstar/reddening.py:25-356 | the grids of the five constructors (lines 25, 114, 217, 278 and 356) have 7500, 2500, 700, 12635 and 7500 points |

## Left out

- Floating point: every quantity is an exact real. IEEE rounding, the
  rounding drift of `np.arange` and the truncation of the polynomial
  evaluations are not modelled. Grid lengths are the exact-arithmetic ones.
- Infinities and NaN: Rv = 0 and a zero extinction at the Ks point give the
  `NonFinite` error in `Cardelli.CardelliCurve`. In the code they give arrays
  of inf or nan. A curve with a non-finite value is stored as absent in
  `RedLawCurves.RedLawCurve.Cardelli89`. Temperatures and log g values in
  the merged dispatch are exact reals as well. `get_merged_atmosphere` falls
  through to `None` for a NaN temperature, or for a NaN log g with
  4000 ≤ T < 7000. `Atmospheres.MergedFamily` has no NaN, so it always
  picks a family.
- Cardelli errors: the code returns `None` for both range errors. The model
  tells too-long, too-short and empty input apart.
- Empty input: `np.min` of an empty array raises. The model returns
  `NoWavelengths` instead.
- Zero wavelength: it gives an infinite wavenumber, which the code's
  `max(x) > 8.0` check refuses. The model counts it as too short.
- Cardelli.NearestKs: `np.where(abs(x-0.46) == min(...))` returns every
  tied index, and the model takes only the first. With m tied indices out
  of n wavelengths, `Aks_Av` and `Av_Aks` hold m values.
  - When 1 < m < n, `extinction * Av_Aks` raises a broadcast `ValueError`.
    An example is wavelengths [2.0, 2.0, 1.0], which give x = [0.5, 0.5, 1.0].
  - When m = n > 1, each entry is divided by its own extinction instead.
- Cardelli.CardelliCurve: on such a tie it returns a curve normalised at the
  first tied index. The code raises there, or divides entry by entry when
  every wavelength is tied. In exact arithmetic the grid of
  `RedLawCurve.Cardelli89` has a single point nearest Ks, so no tie arises there.
- Cardelli.Cardelli: the same as `Cardelli.CardelliCurve`, which it computes.
- The x**1.61 power is an abstract function parameter. Only its use is
  modelled.
- Splines: `splrep`/`splev` are an abstract interpolant parameter. The only
  property assumed about them is that they pass through the knots
  (`SplineLaws.Interpolates`). The value of the cubic spline between knots is
  not modelled.
- SplineLaws.FilterIndex: `np.where(filters == 'K')` returns every match.
  The model takes the first, which is the only one for the Rieke & Lebofsky
  filter list.
- The pysynphot catalog (`Icat`) is an abstract function parameter. The
  adapters' printed diagnostics are modelled only as the `found` flag.
- `print` and the plotting code (`makePlot`, `test_merged_atmospheres`) are
  not modelled.
- File-system work is not modelled: `os.chdir`, `os.mkdir`, moving files,
  FITS reading and writing, and `glob`. File and column lists are inputs,
  in the order glob returns them. Reading a log g or temperature from a file
  or column name is the `Reader` parameter, or the `float()` model in
  `text.dfy`.
- `organize_CMFGEN_atmospheres` is not modelled: it only moves files and
  calls the shell.
- The data of the PHOENIX organizer is not modelled: the wavelength column
  and the flux columns copied into each output table. Only the file names it
  globs and writes are.
- Text.ParseDecimal: models `float()` only for leading blanks followed by
  one or more digits. A point, a sign, an exponent or trailing blanks give
  `None`, so `"2300.0"` is refused where Python reads 2300.0.
- Text.ParseTenths: models `float()` only for leading blanks, one or more
  digits, a point and exactly one digit after it. Any other text gives
  `None`: `"4.50"`, `"4"`, a sign, an exponent or trailing blanks are
  refused where Python reads a number.
- Catalogs.FileTemperature and Catalogs.ColumnGravity inherit those two
  readers. On any other name the model reports `BadTemperature` or
  `BadGravity` where `make_PHOENIX_catalog` writes a row. Names that the
  formats of this module produce always read back (`FileNameRoundTrip`,
  `GravityColumnRoundTrip`).
- Catalogs.CatalogRowsSucceed: its if-and-only-if is about the readers it is
  given. For `PhoenixCatalog` these are the two narrower readers above, not
  `float()`.
- Catalogs.PhoenixCatalogSucceeds: the same. The catalog is built iff every
  name is of the narrower forms above.
- Temperatures are natural numbers, and log g values are integers in tenths
  (PHOENIX) or hundredths (CMFGEN).
- Catalogs.MakeCmfgenCatalog: the temperature and log g columns of the
  parameter table are taken as already read, in kelvin and hundredths.
- The constructors keep only the fields handed to the spectral element base
  class (`CustomRedLaw`), not its behaviour.
- Default arguments of the Python functions are not modelled; callers pass
  every argument.

Where the docstrings and the code disagree, the model follows the code:

- Cardelli accepts wavenumbers in [0.3, 8.0].
- The Román-Zúñiga grid starts at 1.0 µm.
- The merged dispatch switches to Castelli & Kurucz at 7000 K.
