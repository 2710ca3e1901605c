/**
 * The pure parts of the catalog builders for the PHOENIX (Husser et al.
 * 2013) and CMFGEN atmosphere grids: the PHOENIX temperature grid, the
 * per-temperature file names, the gravity column names, the catalog's
 * INDEX keys and FILENAME entries, and the loops that assemble the INDEX
 * and FILENAME columns. Directory changes, globbing, moving files and FITS
 * reads and writes stay outside the model: their results are parameters.
 *
 * Temperatures are whole kelvins; log g values are carried in tenths
 * (PHOENIX, written with one decimal) or hundredths (CMFGEN, two decimals).
 */
module Catalogs {
  import opened Common
  import opened Text

  // ---------------------------------------------------------------------
  // Temperature grid
  // ---------------------------------------------------------------------

  /** `np.arange(start, stop, step)` for integers and a positive step: ⌈(stop - start) / step⌉ points. */
  function IntRange(start: int, stop: int, step: nat): (r: seq<int>)
    requires step > 0
    ensures |r| == 0 <==> start >= stop
    ensures forall i :: 0 <= i < |r| ==> r[i] == start + i * step && r[i] < stop
    ensures start + |r| * step >= stop
  {
    if start >= stop then []
    else
      var n := (stop - start + step - 1) / step;
      CeilingDivision(stop - start, step);
      assert forall i :: 0 <= i < n ==> i * step <= (n - 1) * step by {
        forall i | 0 <= i < n ensures i * step <= (n - 1) * step {
          MulLeft(i, n - 1, step);
        }
      }
      seq(n, i requires 0 <= i < n => start + i * step)
  }

  /** n = ⌈d / step⌉ is the least count of steps that covers d. */
  lemma CeilingDivision(d: int, step: nat)
    requires d > 0 && step > 0
    ensures var n := (d + step - 1) / step; n >= 1 && (n - 1) * step < d && n * step >= d
  {
    var m := d + step - 1;
    var n := m / step;
    assert m == n * step + m % step && 0 <= m % step < step;
    assert (n - 1) * step == n * step - step;
    MulSign(n, step);
  }

  lemma MulLeft(a: int, b: int, m: nat)
    requires a <= b
    ensures a * m <= b * m
  {
  }

  lemma MulSign(a: int, m: nat)
    requires m > 0
    ensures a * m > 0 ==> a > 0
  {
    if a <= 0 {
      MulLeft(a, 0, m);
    }
  }

  /**
   * The Husser+13 temperature grid: 2300..7000 K in steps of 100 K, then
   * 7000..12000 K in steps of 200 K, with 7000 K listed twice.
   */
  function PhoenixTemperatureGrid(): (g: seq<int>)
    ensures |g| == 74
    ensures forall i :: 0 <= i < 48 ==> g[i] == 2300 + 100 * i
    ensures forall i :: 48 <= i < 74 ==> g[i] == 7000 + 200 * (i - 48)
    ensures g[0] == 2300 && g[47] == 7000 && g[48] == 7000 && g[73] == 12000
  {
    var low := IntRange(2300, 7001, 100);
    var high := IntRange(7000, 12001, 200);
    assert |low| == 48 by {
      assert low[|low| - 1] < 7001;
    }
    assert |high| == 26 by {
      assert high[|high| - 1] < 12001;
    }
    low + high
  }

  /** The grid is ascending, and 7000 K is the only temperature listed twice. */
  lemma GridRepeatsOnlySevenThousand()
    ensures var g := PhoenixTemperatureGrid();
      (forall i, j :: 0 <= i < j < |g| ==> g[i] <= g[j]) &&
      (forall i, j :: 0 <= i < j < |g| ==> (g[i] == g[j] <==> i == 47 && j == 48))
  {
  }

  // ---------------------------------------------------------------------
  // File and column names
  // ---------------------------------------------------------------------

  /** The prefix of every reorganised PHOENIX model file name. */
  const PhoenixFilePrefix: string := "phoenixm00"

  /** `'phoenixm00_{0:05d}.fits'.format(temp)`: the file holding every gravity at one temperature. */
  function PhoenixFileName(temp: nat): string {
    PhoenixFilePrefix + "_" + FormatZeroPadded(temp, 5) + ".fits"
  }

  /** `'lte{0:05d}-*-HiRes.fits'.format(temp)`: the glob for the downloaded spectra at one temperature. */
  function HusserPattern(temp: nat): string {
    "lte" + FormatZeroPadded(temp, 5) + "-*-HiRes.fits"
  }

  /** `float(f.split('_')[1][:-5])`: the temperature read back from a model file name. */
  function FileTemperature(f: string): Option<nat> {
    var parts := Split(f, '_');
    if |parts| < 2 then None else ParseDecimal(DropLast(parts[1], 5))
  }

  /** `'g{0:2.1f}'.format(logg)`: the column holding the flux at one log g. */
  function GravityColumn(tenths: nat): string {
    "g" + FormatFixed1(tenths, 2)
  }

  /** `float(j[1:])`: the log g read back from a column name. */
  function ColumnGravity(column: string): Option<nat> {
    ParseTenths(DropFirst(column, 1))
  }

  /** `'{0:5.0f},0.0,{1:2.1f}'.format(temp, logg)`: a PHOENIX catalog INDEX key. */
  function PhoenixIndexKey(temp: nat, tenths: nat): string {
    FormatFixed0(temp, 5) + ",0.0," + FormatFixed1(tenths, 2)
  }

  /** `'{0:5.0f},0.0,{1:3.2f}'.format(temp, logg)`: a CMFGEN catalog INDEX key. */
  function CmfgenIndexKey(temp: nat, hundredths: nat): string {
    FormatFixed0(temp, 5) + ",0.0," + FormatFixed2(hundredths, 3)
  }

  /** `path_to_dir + i + '[' + j + ']'`: a PHOENIX catalog FILENAME entry. */
  function PhoenixEntry(pathToDir: string, file: string, column: string): string {
    pathToDir + file + "[" + column + "]"
  }

  // ---------------------------------------------------------------------
  // Facts about the names
  // ---------------------------------------------------------------------

  /** Characters the numeric formats can produce. */
  predicate NumericText(s: string) {
    forall i :: 0 <= i < |s| ==> IsDigit(s[i]) || s[i] == ' ' || s[i] == '.'
  }

  lemma PaddedNumericText(s: string, width: nat, fill: char)
    requires NumericText(s) && (IsDigit(fill) || fill == ' ')
    ensures NumericText(PadLeft(s, width, fill))
  {
    var p := PadLeft(s, width, fill);
    forall i | 0 <= i < |p|
      ensures IsDigit(p[i]) || p[i] == ' ' || p[i] == '.'
    {
      if i >= |p| - |s| {
        assert p[i] == p[|p| - |s|..][i - (|p| - |s|)];
      }
    }
  }

  lemma ZeroPaddedNumeric(n: nat, width: nat)
    ensures NumericText(FormatZeroPadded(n, width))
  {
    PaddedNumericText(DecimalDigits(n), width, '0');
  }

  lemma Fixed0Numeric(n: nat, width: nat)
    ensures NumericText(FormatFixed0(n, width))
  {
    PaddedNumericText(DecimalDigits(n), width, ' ');
  }

  lemma Fixed1Numeric(tenths: nat, width: nat)
    ensures NumericText(FormatFixed1(tenths, width))
  {
    var p := PointText(tenths / 10, tenths % 10);
    assert NumericText(p) by {
      var d := DecimalDigits(tenths / 10);
      forall i | 0 <= i < |p| ensures IsDigit(p[i]) || p[i] == ' ' || p[i] == '.' {
        if i < |d| { assert p[i] == d[i]; }
      }
    }
    PaddedNumericText(p, width, ' ');
  }

  lemma Fixed2Numeric(hundredths: nat, width: nat)
    ensures NumericText(FormatFixed2(hundredths, width))
  {
    var d := DecimalDigits(hundredths / 100);
    var p := d + "." + [DigitChar(hundredths / 10 % 10), DigitChar(hundredths % 10)];
    assert NumericText(p) by {
      forall i | 0 <= i < |p| ensures IsDigit(p[i]) || p[i] == ' ' || p[i] == '.' {
        if i < |d| { assert p[i] == d[i]; }
      }
    }
    PaddedNumericText(p, width, ' ');
  }

  /** Writing a model file name and reading its temperature back gives the temperature written. */
  lemma FileNameRoundTrip(temp: nat)
    ensures FileTemperature(PhoenixFileName(temp)) == Some(temp)
  {
    var z := FormatZeroPadded(temp, 5);
    var tail := z + ".fits";
    ZeroPaddedNumeric(temp, 5);
    assert '_' !in tail by {
      forall i | 0 <= i < |tail| ensures tail[i] != '_' {
        if i < |z| {
          assert tail[i] == z[i];
        }
      }
    }
    assert PhoenixFileName(temp) == PhoenixFilePrefix + ['_'] + tail;
    SplitAfter(PhoenixFilePrefix, '_', tail);
    assert DropLast(tail, 5) == z;
    ZeroPaddedRoundTrip(temp, 5);
  }

  /** Writing a gravity column name and reading its log g back gives the value written. */
  lemma GravityColumnRoundTrip(tenths: nat)
    ensures ColumnGravity(GravityColumn(tenths)) == Some(tenths)
  {
    assert DropFirst(GravityColumn(tenths), 1) == FormatFixed1(tenths, 2);
    Fixed1RoundTrip(tenths, 2);
  }

  lemma NoCommaIn(s: string)
    requires NumericText(s)
    ensures ',' !in s
  {
    forall i | 0 <= i < |s| ensures s[i] != ',' {
      assert IsDigit(s[i]) || s[i] == ' ' || s[i] == '.';
    }
  }

  /** The comma-separated layout shared by both INDEX key formats. */
  lemma {:induction false} KeyLayout(a: string, c: string)
    requires NumericText(a) && NumericText(c)
    ensures Split(a + ",0.0," + c, ',') == [a, "0.0", c]
  {
    NoCommaIn(a);
    NoCommaIn(c);
    assert a + ",0.0," + c == a + [','] + ("0.0" + [','] + c);
    SplitAfter(a, ',', "0.0" + [','] + c);
    SplitAfter("0.0", ',', c);
  }

  /**
   * A PHOENIX INDEX key has three comma-separated fields: the temperature,
   * the metallicity placeholder "0.0" and the log g, and the first and last
   * read back as the values written.
   */
  lemma PhoenixIndexKeyFields(temp: nat, tenths: nat)
    ensures var fields := Split(PhoenixIndexKey(temp, tenths), ',');
      |fields| == 3 && fields[1] == "0.0" &&
      ParseDecimal(fields[0]) == Some(temp) && ParseTenths(fields[2]) == Some(tenths)
  {
    Fixed0Numeric(temp, 5);
    Fixed1Numeric(tenths, 2);
    KeyLayout(FormatFixed0(temp, 5), FormatFixed1(tenths, 2));
    Fixed0RoundTrip(temp, 5);
    Fixed1RoundTrip(tenths, 2);
  }

  /**
   * A CMFGEN INDEX key has three comma-separated fields: the temperature
   * (which reads back as the value written), "0.0", and the log g written
   * with two decimals.
   */
  lemma CmfgenIndexKeyFields(temp: nat, hundredths: nat)
    ensures var fields := Split(CmfgenIndexKey(temp, hundredths), ',');
      |fields| == 3 && fields[1] == "0.0" &&
      ParseDecimal(fields[0]) == Some(temp) && fields[2] == FormatFixed2(hundredths, 3)
  {
    Fixed0Numeric(temp, 5);
    Fixed2Numeric(hundredths, 3);
    KeyLayout(FormatFixed0(temp, 5), FormatFixed2(hundredths, 3));
    Fixed0RoundTrip(temp, 5);
  }

  // ---------------------------------------------------------------------
  // orgnaize_PHOENIX_atmospheres: one output file per grid temperature
  // ---------------------------------------------------------------------

  /** Different temperatures never share a model file name. */
  lemma FileNameInjective(a: nat, b: nat)
    ensures PhoenixFileName(a) == PhoenixFileName(b) <==> a == b
  {
    FileNameRoundTrip(a);
    FileNameRoundTrip(b);
  }

  /**
   * The loop over the temperatures: the glob pattern and the output name of
   * each, in order. It is stated for any two naming functions so that its
   * proof need not look inside the formats.
   */
  method NamesPerTemperature(temps: seq<nat>, patternOf: nat -> string, outnameOf: nat -> string)
    returns (patterns: seq<string>, outnames: seq<string>)
    ensures |patterns| == |outnames| == |temps|
    ensures forall k :: 0 <= k < |temps| ==> patterns[k] == patternOf(temps[k]) && outnames[k] == outnameOf(temps[k])
  {
    patterns, outnames := [], [];
    for i := 0 to |temps|
      invariant |patterns| == |outnames| == i
      invariant forall k :: 0 <= k < i ==> patterns[k] == patternOf(temps[k]) && outnames[k] == outnameOf(temps[k])
    {
      var temp := temps[i];
      patterns := patterns + [patternOf(temp)];
      outnames := outnames + [outnameOf(temp)];
    }
  }

  /**
   * The names the reorganising loop globs for and writes, one per grid
   * temperature in grid order. Every written name reads back as its
   * temperature, and the only name written twice is the 7000 K file
   * (the second write overwrites the first).
   */
  method OrganizePhoenixNames() returns (patterns: seq<string>, outnames: seq<string>)
    ensures |patterns| == |outnames| == |PhoenixTemperatureGrid()|
    ensures forall i :: 0 <= i < |outnames| ==>
              PhoenixTemperatureGrid()[i] >= 0 &&
              patterns[i] == HusserPattern(PhoenixTemperatureGrid()[i] as nat) &&
              outnames[i] == PhoenixFileName(PhoenixTemperatureGrid()[i] as nat)
    ensures forall i :: 0 <= i < |outnames| ==> FileTemperature(outnames[i]) == Some(PhoenixTemperatureGrid()[i] as nat)
    ensures forall i, j :: 0 <= i < j < |outnames| ==> (outnames[i] == outnames[j] <==> i == 47 && j == 48)
  {
    var tempArr := PhoenixTemperatureGrid();
    var temps: seq<nat> := seq(|tempArr|, k requires 0 <= k < |tempArr| => tempArr[k] as nat);
    patterns, outnames := NamesPerTemperature(temps, HusserPattern, PhoenixFileName);
    forall i | 0 <= i < |outnames|
      ensures FileTemperature(outnames[i]) == Some(temps[i])
    {
      FileNameRoundTrip(temps[i]);
    }
    GridRepeatsOnlySevenThousand();
    forall i, j | 0 <= i < j < |outnames|
      ensures outnames[i] == outnames[j] <==> i == 47 && j == 48
    {
      FileNameInjective(temps[i], temps[j]);
    }
  }

  // ---------------------------------------------------------------------
  // make_PHOENIX_catalog
  // ---------------------------------------------------------------------

  /** The two columns of a catalog table. */
  datatype CatalogTable = CatalogTable(index: seq<string>, filename: seq<string>)

  /** The exceptions the catalog builder raises. */
  datatype CatalogError =
    | NoModelFiles                 // `files[0]` on an empty directory listing
    | BadTemperature(file: string)   // `float()` of the file name's temperature field
    | BadGravity(column: string)     // `float()` of a column name's log g

  /**
   * Reads a number out of a name; `None` is the `ValueError` of `float()`.
   * The catalog builder uses `FileTemperature` for file names and
   * `ColumnGravity` for column names; the loop specifications below are
   * stated for any reader so that their proofs need not look inside them.
   */
  type Reader = string -> Option<nat>

  /** `keys[1:]`: the gravity columns after the leading wavelength column. */
  function GravityColumns(keys: seq<string>): seq<string> {
    if |keys| == 0 then [] else keys[1..]
  }

  /** The rows the inner loop appends for one model file, over the given columns in order. */
  function FileRows(pathToDir: string, file: string, temp: nat, columns: seq<string>, gravityOf: Reader)
    : Result<CatalogTable, CatalogError>
    decreases |columns|
  {
    if columns == [] then Success(CatalogTable([], []))
    else
      match FileRows(pathToDir, file, temp, columns[..|columns| - 1], gravityOf)
      case Failure(e) => Failure(e)
      case Success(rows) =>
        var column := columns[|columns| - 1];
        match gravityOf(column)
        case None => Failure(BadGravity(column))
        case Some(logg) =>
          Success(CatalogTable(rows.index + [PhoenixIndexKey(temp, logg)],
                               rows.filename + [PhoenixEntry(pathToDir, file, column)]))
  }

  /** The rows the outer loop has appended after the given files, in order. */
  function CatalogRows(pathToDir: string, files: seq<string>, columns: seq<string>,
                       temperatureOf: Reader, gravityOf: Reader)
    : Result<CatalogTable, CatalogError>
    decreases |files|
  {
    if files == [] then Success(CatalogTable([], []))
    else
      match CatalogRows(pathToDir, files[..|files| - 1], columns, temperatureOf, gravityOf)
      case Failure(e) => Failure(e)
      case Success(table) =>
        var file := files[|files| - 1];
        match temperatureOf(file)
        case None => Failure(BadTemperature(file))
        case Some(temp) =>
          match FileRows(pathToDir, file, temp, columns, gravityOf)
          case Failure(e) => Failure(e)
          case Success(rows) => Success(CatalogTable(table.index + rows.index, table.filename + rows.filename))
  }

  /**
   * The INDEX and FILENAME columns `make_PHOENIX_catalog` writes, given the
   * directory listing `files` and the column names `firstKeys` of the
   * first file's table.
   */
  function PhoenixCatalog(pathToDir: string, files: seq<string>, firstKeys: seq<string>)
    : Result<CatalogTable, CatalogError>
  {
    if files == [] then Failure(NoModelFiles)
    else CatalogRows(pathToDir, files, GravityColumns(firstKeys), FileTemperature, ColumnGravity)
  }

  lemma {:induction false} FileRowsFailurePersists(pathToDir: string, file: string, temp: nat,
                                                   columns: seq<string>, gravityOf: Reader, j: nat, e: CatalogError)
    requires j <= |columns| && FileRows(pathToDir, file, temp, columns[..j], gravityOf) == Failure(e)
    ensures FileRows(pathToDir, file, temp, columns, gravityOf) == Failure(e)
    decreases |columns| - j
  {
    if j < |columns| {
      var front := columns[..|columns| - 1];
      assert front[..j] == columns[..j];
      FileRowsFailurePersists(pathToDir, file, temp, front, gravityOf, j, e);
    } else {
      assert columns[..j] == columns;
    }
  }

  lemma {:induction false} CatalogRowsFailurePersists(pathToDir: string, files: seq<string>, columns: seq<string>,
                                                      temperatureOf: Reader, gravityOf: Reader, i: nat, e: CatalogError)
    requires i <= |files| && CatalogRows(pathToDir, files[..i], columns, temperatureOf, gravityOf) == Failure(e)
    ensures CatalogRows(pathToDir, files, columns, temperatureOf, gravityOf) == Failure(e)
    decreases |files| - i
  {
    if i < |files| {
      var front := files[..|files| - 1];
      assert front[..i] == files[..i];
      CatalogRowsFailurePersists(pathToDir, front, columns, temperatureOf, gravityOf, i, e);
    } else {
      assert files[..i] == files;
    }
  }

  /** One more column appends one more row. */
  lemma FileRowsSnoc(pathToDir: string, file: string, temp: nat, columns: seq<string>, gravityOf: Reader,
                     j: nat, rows: CatalogTable, logg: nat)
    requires j < |columns| && FileRows(pathToDir, file, temp, columns[..j], gravityOf) == Success(rows)
    requires gravityOf(columns[j]) == Some(logg)
    ensures FileRows(pathToDir, file, temp, columns[..j + 1], gravityOf) ==
              Success(CatalogTable(rows.index + [PhoenixIndexKey(temp, logg)],
                                   rows.filename + [PhoenixEntry(pathToDir, file, columns[j])]))
  {
    assert columns[..j + 1][..j] == columns[..j];
  }

  /** One more file appends that file's rows. */
  lemma CatalogRowsSnoc(pathToDir: string, files: seq<string>, columns: seq<string>,
                        temperatureOf: Reader, gravityOf: Reader, i: nat, table: CatalogTable,
                        temp: nat, rows: CatalogTable)
    requires i < |files| && CatalogRows(pathToDir, files[..i], columns, temperatureOf, gravityOf) == Success(table)
    requires temperatureOf(files[i]) == Some(temp)
    requires FileRows(pathToDir, files[i], temp, columns, gravityOf) == Success(rows)
    ensures CatalogRows(pathToDir, files[..i + 1], columns, temperatureOf, gravityOf) ==
              Success(CatalogTable(table.index + rows.index, table.filename + rows.filename))
  {
    assert files[..i + 1][..i] == files[..i];
  }

  /** A file whose temperature does not read back stops the outer loop. */
  lemma CatalogRowsBadFile(pathToDir: string, files: seq<string>, columns: seq<string>,
                           temperatureOf: Reader, gravityOf: Reader, i: nat, table: CatalogTable)
    requires i < |files| && CatalogRows(pathToDir, files[..i], columns, temperatureOf, gravityOf) == Success(table)
    requires temperatureOf(files[i]).None?
    ensures CatalogRows(pathToDir, files, columns, temperatureOf, gravityOf) == Failure(BadTemperature(files[i]))
  {
    assert files[..i + 1][..i] == files[..i];
    CatalogRowsFailurePersists(pathToDir, files, columns, temperatureOf, gravityOf, i + 1, BadTemperature(files[i]));
  }

  /** A column whose log g does not read back stops the rows of its file. */
  lemma FileRowsBadColumn(pathToDir: string, file: string, temp: nat, columns: seq<string>, gravityOf: Reader,
                          j: nat, rows: CatalogTable)
    requires j < |columns| && FileRows(pathToDir, file, temp, columns[..j], gravityOf) == Success(rows)
    requires gravityOf(columns[j]).None?
    ensures FileRows(pathToDir, file, temp, columns, gravityOf) == Failure(BadGravity(columns[j]))
  {
    assert columns[..j + 1][..j] == columns[..j];
    FileRowsFailurePersists(pathToDir, file, temp, columns, gravityOf, j + 1, BadGravity(columns[j]));
  }

  /** A file whose rows fail stops the whole catalog with the same error. */
  lemma CatalogRowsFileFails(pathToDir: string, files: seq<string>, columns: seq<string>,
                             temperatureOf: Reader, gravityOf: Reader, i: nat, table: CatalogTable, temp: nat)
    requires i < |files| && CatalogRows(pathToDir, files[..i], columns, temperatureOf, gravityOf) == Success(table)
    requires temperatureOf(files[i]) == Some(temp)
    requires FileRows(pathToDir, files[i], temp, columns, gravityOf).Failure?
    ensures CatalogRows(pathToDir, files, columns, temperatureOf, gravityOf) ==
              Failure(FileRows(pathToDir, files[i], temp, columns, gravityOf).error)
  {
    assert files[..i + 1][..i] == files[..i];
    CatalogRowsFailurePersists(pathToDir, files, columns, temperatureOf, gravityOf, i + 1,
                               FileRows(pathToDir, files[i], temp, columns, gravityOf).error);
  }

  /**
   * `make_PHOENIX_catalog`: for each file, read its temperature from the
   * name; for each gravity column, append one INDEX key and one FILENAME
   * entry. An exception of the source is a `Failure`.
   */
  method MakePhoenixCatalog(pathToDir: string, files: seq<string>, firstKeys: seq<string>)
    returns (r: Result<CatalogTable, CatalogError>)
    ensures r == PhoenixCatalog(pathToDir, files, firstKeys)
  {
    if |files| == 0 {
      return Failure(NoModelFiles);
    }
    var loggVals := GravityColumns(firstKeys);
    var indexArr: seq<string> := [];
    var filenameArr: seq<string> := [];
    var i := 0;
    while i < |files|
      invariant 0 <= i <= |files|
      invariant CatalogRows(pathToDir, files[..i], loggVals, FileTemperature, ColumnGravity) ==
                Success(CatalogTable(indexArr, filenameArr))
    {
      var file := files[i];
      var temp := FileTemperature(file);
      if temp.None? {
        CatalogRowsBadFile(pathToDir, files, loggVals, FileTemperature, ColumnGravity, i,
                           CatalogTable(indexArr, filenameArr));
        return Failure(BadTemperature(file));
      }
      var rows := AppendFileRows(pathToDir, file, temp.value, loggVals);
      if rows.Failure? {
        CatalogRowsFileFails(pathToDir, files, loggVals, FileTemperature, ColumnGravity, i,
                             CatalogTable(indexArr, filenameArr), temp.value);
        return Failure(rows.error);
      }
      CatalogRowsSnoc(pathToDir, files, loggVals, FileTemperature, ColumnGravity, i,
                      CatalogTable(indexArr, filenameArr), temp.value, rows.value);
      indexArr := indexArr + rows.value.index;
      filenameArr := filenameArr + rows.value.filename;
      i := i + 1;
    }
    assert files[..i] == files;
    return Success(CatalogTable(indexArr, filenameArr));
  }

  /** The inner loop of `make_PHOENIX_catalog`: one key and one entry per gravity column of one file. */
  method AppendFileRows(pathToDir: string, file: string, temp: nat, loggVals: seq<string>)
    returns (r: Result<CatalogTable, CatalogError>)
    ensures r == FileRows(pathToDir, file, temp, loggVals, ColumnGravity)
  {
    var indexArr: seq<string> := [];
    var filenameArr: seq<string> := [];
    var j := 0;
    while j < |loggVals|
      invariant 0 <= j <= |loggVals|
      invariant FileRows(pathToDir, file, temp, loggVals[..j], ColumnGravity) ==
                Success(CatalogTable(indexArr, filenameArr))
    {
      var column := loggVals[j];
      var logg := ColumnGravity(column);
      if logg.None? {
        FileRowsBadColumn(pathToDir, file, temp, loggVals, ColumnGravity, j, CatalogTable(indexArr, filenameArr));
        return Failure(BadGravity(column));
      }
      FileRowsSnoc(pathToDir, file, temp, loggVals, ColumnGravity, j, CatalogTable(indexArr, filenameArr), logg.value);
      indexArr := indexArr + [PhoenixIndexKey(temp, logg.value)];
      filenameArr := filenameArr + [PhoenixEntry(pathToDir, file, column)];
      j := j + 1;
    }
    assert loggVals[..j] == loggVals;
    return Success(CatalogTable(indexArr, filenameArr));
  }

  /** Every name reads back as a number. */
  predicate AllRead(names: seq<string>, readerOf: Reader) {
    forall i :: 0 <= i < |names| ==> readerOf(names[i]).Some?
  }

  lemma {:induction false} AllReadSnoc(names: seq<string>, readerOf: Reader)
    requires names != []
    ensures AllRead(names, readerOf) <==>
              AllRead(names[..|names| - 1], readerOf) && readerOf(names[|names| - 1]).Some?
  {
    var n := |names|;
    var front := names[..n - 1];
    if AllRead(front, readerOf) && readerOf(names[n - 1]).Some? {
      forall i | 0 <= i < n ensures readerOf(names[i]).Some? {
        if i < n - 1 { assert names[i] == front[i]; }
      }
    }
    if AllRead(names, readerOf) {
      forall i | 0 <= i < n - 1 ensures readerOf(front[i]).Some? {
        assert front[i] == names[i];
      }
    }
  }

  /** The inner loop completes exactly when every column name reads back, with one row per column. */
  lemma {:induction false} FileRowsSucceed(pathToDir: string, file: string, temp: nat, columns: seq<string>,
                                           gravityOf: Reader)
    ensures FileRows(pathToDir, file, temp, columns, gravityOf).Success? <==> AllRead(columns, gravityOf)
    ensures FileRows(pathToDir, file, temp, columns, gravityOf).Success? ==>
              |FileRows(pathToDir, file, temp, columns, gravityOf).value.index| == |columns| &&
              |FileRows(pathToDir, file, temp, columns, gravityOf).value.filename| == |columns|
    decreases |columns|
  {
    if columns != [] {
      FileRowsSucceed(pathToDir, file, temp, columns[..|columns| - 1], gravityOf);
      AllReadSnoc(columns, gravityOf);
    }
  }

  /** Row `j` of one file's rows is built from column `j`. */
  lemma {:induction false} FileRowAt(pathToDir: string, file: string, temp: nat, columns: seq<string>,
                                     gravityOf: Reader, j: nat)
    requires j < |columns| && FileRows(pathToDir, file, temp, columns, gravityOf).Success?
    ensures gravityOf(columns[j]).Some?
    ensures |FileRows(pathToDir, file, temp, columns, gravityOf).value.index| == |columns|
    ensures |FileRows(pathToDir, file, temp, columns, gravityOf).value.filename| == |columns|
    ensures FileRows(pathToDir, file, temp, columns, gravityOf).value.index[j] ==
              PhoenixIndexKey(temp, gravityOf(columns[j]).value)
    ensures FileRows(pathToDir, file, temp, columns, gravityOf).value.filename[j] ==
              PhoenixEntry(pathToDir, file, columns[j])
    decreases |columns|
  {
    var n := |columns|;
    var front := columns[..n - 1];
    var last := columns[n - 1];
    FileRowsSucceed(pathToDir, file, temp, columns, gravityOf);
    FileRowsSucceed(pathToDir, file, temp, front, gravityOf);
    var rows := FileRows(pathToDir, file, temp, front, gravityOf).value;
    var key := PhoenixIndexKey(temp, gravityOf(last).value);
    var entry := PhoenixEntry(pathToDir, file, last);
    assert FileRows(pathToDir, file, temp, columns, gravityOf).value ==
             CatalogTable(rows.index + [key], rows.filename + [entry]);
    if j < n - 1 {
      FileRowAt(pathToDir, file, temp, front, gravityOf, j);
      assert columns[j] == front[j];
      assert (rows.index + [key])[j] == rows.index[j];
      assert (rows.filename + [entry])[j] == rows.filename[j];
    }
  }

  lemma MulStep(a: nat, m: nat)
    ensures (a + 1) * m == a * m + m
  {
  }

  lemma {:induction false} MulMonotone(a: nat, b: nat, m: nat)
    requires a <= b
    ensures a * m <= b * m
    decreases b - a
  {
    if a < b {
      MulMonotone(a, b - 1, m);
      MulStep(b - 1, m);
    }
  }

  /** Position `j` of block `i` lies inside `n` blocks of `m`. */
  lemma BlockBound(i: nat, j: nat, m: nat, n: nat)
    requires i < n && j < m
    ensures i * m + j < n * m
  {
    MulStep(i, m);
    MulMonotone(i + 1, n, m);
  }

  /**
   * The outer loop completes exactly when every file name reads back and,
   * if there is a file, every column name reads back; it then holds one
   * row per (file, column) pair.
   */
  lemma {:induction false} CatalogRowsSucceed(pathToDir: string, files: seq<string>, columns: seq<string>,
                                              temperatureOf: Reader, gravityOf: Reader)
    ensures CatalogRows(pathToDir, files, columns, temperatureOf, gravityOf).Success? <==>
              AllRead(files, temperatureOf) && (files != [] ==> AllRead(columns, gravityOf))
    ensures CatalogRows(pathToDir, files, columns, temperatureOf, gravityOf).Success? ==>
              |CatalogRows(pathToDir, files, columns, temperatureOf, gravityOf).value.index| == |files| * |columns| &&
              |CatalogRows(pathToDir, files, columns, temperatureOf, gravityOf).value.filename| == |files| * |columns|
    decreases |files|
  {
    if files != [] {
      var n, m := |files|, |columns|;
      var file := files[n - 1];
      CatalogRowsSucceed(pathToDir, files[..n - 1], columns, temperatureOf, gravityOf);
      AllReadSnoc(files, temperatureOf);
      if temperatureOf(file).Some? {
        FileRowsSucceed(pathToDir, file, temperatureOf(file).value, columns, gravityOf);
      }
      MulStep(n - 1, m);
    }
  }

  /** Row `i * m + j` of the catalog is built from file `i` and column `j`. */
  lemma {:induction false} CatalogRowAt(pathToDir: string, files: seq<string>, columns: seq<string>,
                                        temperatureOf: Reader, gravityOf: Reader, i: nat, j: nat)
    requires i < |files| && j < |columns| && CatalogRows(pathToDir, files, columns, temperatureOf, gravityOf).Success?
    ensures temperatureOf(files[i]).Some? && gravityOf(columns[j]).Some?
    ensures i * |columns| + j < |CatalogRows(pathToDir, files, columns, temperatureOf, gravityOf).value.index|
    ensures i * |columns| + j < |CatalogRows(pathToDir, files, columns, temperatureOf, gravityOf).value.filename|
    ensures CatalogRows(pathToDir, files, columns, temperatureOf, gravityOf).value.index[i * |columns| + j] ==
              PhoenixIndexKey(temperatureOf(files[i]).value, gravityOf(columns[j]).value)
    ensures CatalogRows(pathToDir, files, columns, temperatureOf, gravityOf).value.filename[i * |columns| + j] ==
              PhoenixEntry(pathToDir, files[i], columns[j])
    decreases |files|
  {
    var n, m := |files|, |columns|;
    var front := files[..n - 1];
    var file := files[n - 1];
    CatalogRowsSucceed(pathToDir, files, columns, temperatureOf, gravityOf);
    CatalogRowsSucceed(pathToDir, front, columns, temperatureOf, gravityOf);
    var before := CatalogRows(pathToDir, front, columns, temperatureOf, gravityOf).value;
    var temp := temperatureOf(file).value;
    var rows := FileRows(pathToDir, file, temp, columns, gravityOf).value;
    assert CatalogRows(pathToDir, files, columns, temperatureOf, gravityOf).value ==
             CatalogTable(before.index + rows.index, before.filename + rows.filename);
    BlockBound(i, j, m, n);
    if i < n - 1 {
      BlockBound(i, j, m, n - 1);
      CatalogRowAt(pathToDir, front, columns, temperatureOf, gravityOf, i, j);
      assert files[i] == front[i];
    } else {
      FileRowAt(pathToDir, file, temp, columns, gravityOf, j);
    }
  }

  /** Every model file name reads back as a temperature. */
  predicate AllTemperaturesParse(files: seq<string>) {
    forall i :: 0 <= i < |files| ==> FileTemperature(files[i]).Some?
  }

  /** Every gravity column name reads back as a log g. */
  predicate AllGravitiesParse(columns: seq<string>) {
    forall j :: 0 <= j < |columns| ==> ColumnGravity(columns[j]).Some?
  }

  /**
   * `make_PHOENIX_catalog` succeeds exactly when the listing is non-empty
   * and every file and column name reads back; the catalog then holds one
   * row per (file, gravity column) pair.
   */
  lemma PhoenixCatalogSucceeds(pathToDir: string, files: seq<string>, firstKeys: seq<string>)
    ensures PhoenixCatalog(pathToDir, files, firstKeys).Success? <==>
              files != [] && AllTemperaturesParse(files) && AllGravitiesParse(GravityColumns(firstKeys))
    ensures PhoenixCatalog(pathToDir, files, firstKeys).Success? ==>
              |PhoenixCatalog(pathToDir, files, firstKeys).value.index| == |files| * |GravityColumns(firstKeys)| &&
              |PhoenixCatalog(pathToDir, files, firstKeys).value.filename| == |files| * |GravityColumns(firstKeys)|
  {
    var columns := GravityColumns(firstKeys);
    CatalogRowsSucceed(pathToDir, files, columns, FileTemperature, ColumnGravity);
    assert AllRead(files, FileTemperature) <==> AllTemperaturesParse(files);
    assert AllRead(columns, ColumnGravity) <==> AllGravitiesParse(columns);
  }

  // ---------------------------------------------------------------------
  // make_CMFGEN_catalog
  // ---------------------------------------------------------------------

  /**
   * `make_CMFGEN_catalog`: one INDEX key per row of the parameter table
   * (name, temperature, log g columns, of one table and so of one length)
   * and the model name as its FILENAME.
   */
  method MakeCmfgenCatalog(names: seq<string>, temps: seq<nat>, loggs: seq<nat>)
    returns (indexStr: seq<string>, nameStr: seq<string>)
    requires |temps| == |names| && |loggs| == |names|
    ensures nameStr == names
    ensures |indexStr| == |names|
    ensures forall i :: 0 <= i < |names| ==> indexStr[i] == CmfgenIndexKey(temps[i], loggs[i])
  {
    indexStr, nameStr := [], [];
    for i := 0 to |names|
      invariant |indexStr| == i && nameStr == names[..i]
      invariant forall k :: 0 <= k < i ==> indexStr[k] == CmfgenIndexKey(temps[k], loggs[k])
    {
      var index := CmfgenIndexKey(temps[i], loggs[i]);
      var path := names[i];
      indexStr := indexStr + [index];
      nameStr := nameStr + [path];
    }
    assert nameStr == names[..|names|];
  }
}
