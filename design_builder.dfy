/** The Design Builder (gwas_ko/scripts/run_mageck_clean.py): it resolves the
    sample sheet's required columns case-insensitively, writes a design
    manifest with one line per sample, and builds the `mageck count` and
    `mageck test` commands, which it prints but never launches.

    As for the Sample Resolver, the run is a plan: the sequence of steps the
    script performs, computed from its options and the sample sheet. */
module DesignBuilder {
  import opened Wrappers
  import opened Strings
  import opened Paths

  // ===========================================================================
  // Inputs

  /** The parsed command line. `fastqRoot` is `"."` when the option is not
      given; `cspa` and `threads` are accepted and never used. */
  datatype Options = Options(
    sampleInfo: string,
    library: string,
    cspa: Option<string>,
    fastqRoot: string,
    outdir: string,
    threads: int,
    dryRun: bool)

  /** The sample sheet: its column names, in file order, and its rows, each a
      cell per column. */
  datatype Table = Table(headers: seq<string>, rows: seq<seq<string>>)

  /** Every row has one cell per column, as in any table pandas builds. */
  predicate Rectangular(t: Table) {
    forall r :: 0 <= r < |t.rows| ==> |t.rows[r]| == |t.headers|
  }

  // ===========================================================================
  // Column resolution

  /** The logical columns the sheet must provide. */
  const Required: set<string> := {"sample_id", "donor", "bin", "r1", "r2"}

  /** The lower-cased column names. */
  function LoweredHeaders(headers: seq<string>): (s: set<string>)
    ensures forall need :: need in s <==> exists k :: 0 <= k < |headers| && Lower(headers[k]) == need
  {
    var s := set h | h in headers :: Lower(h);
    assert forall need :: need in s ==> exists k :: 0 <= k < |headers| && Lower(headers[k]) == need by {
      forall need | need in s ensures exists k :: 0 <= k < |headers| && Lower(headers[k]) == need {
        var h :| h in headers && Lower(h) == need;
        var k :| 0 <= k < |headers| && headers[k] == h;
      }
    }
    s
  }

  /** The names of `needs` that no column name equals once lower-cased. */
  function MissingFrom(headers: seq<string>, needs: set<string>): (m: set<string>)
    ensures m <= needs
    ensures forall need :: need in m <==> need in needs && forall k :: 0 <= k < |headers| ==> Lower(headers[k]) != need
  {
    needs - LoweredHeaders(headers)
  }

  /** `missing` (line 51). */
  function MissingColumns(headers: seq<string>): set<string> {
    MissingFrom(headers, Required)
  }

  /** The position of the first column whose lower-cased name is `need`. */
  function FirstHeader(headers: seq<string>, need: string): (r: Option<nat>)
    ensures r.Some? ==> r.value < |headers| && Lower(headers[r.value]) == need
    ensures r.Some? ==> forall j :: 0 <= j < r.value ==> Lower(headers[j]) != need
    ensures r.None? <==> forall j :: 0 <= j < |headers| ==> Lower(headers[j]) != need
  {
    if headers == [] then None
    else if Lower(headers[0]) == need then Some(0)
    else
      match FirstHeader(headers[1..], need)
      case None => None
      case Some(k) => Some(k + 1)
  }

  /** The part of `colmap` (lines 53-58) built for the names in `needs`: each
      name that some column matches, mapped to the first such column. */
  function ColumnMapFor(headers: seq<string>, needs: set<string>): map<string, string> {
    map need | need in needs && FirstHeader(headers, need).Some? :: headers[FirstHeader(headers, need).value]
  }

  /** `colmap` once every required name has been looked up. */
  function ColumnMap(headers: seq<string>): map<string, string> {
    ColumnMapFor(headers, Required)
  }

  /** The outcome of column resolution: the column map, or the failure of
      line 60, which reports the column names it saw. */
  datatype Columns = Resolved(colmap: map<string, string>) | Unresolved(seen: set<string>)

  /** Lines 50-60: compute `missing`, fill `colmap`, and fail when a name
      is missing and the map is incomplete. */
  method ResolveColumns(headers: seq<string>) returns (r: Columns)
    ensures r.Unresolved? <==> MissingColumns(headers) != {}
    ensures r.Unresolved? ==> r.seen == set h | h in headers
    ensures r.Resolved? ==> r.colmap == ColumnMap(headers) && MapsToColumns(headers, r.colmap)
  {
    var missing := Required - LoweredHeaders(headers);
    var colmap := BuildColumnMap(headers, Required);
    ColumnMapIncomplete(headers);
    if missing != {} && |colmap| != |Required| {
      return Unresolved(set h | h in headers);
    }
    ColumnMapMapsToColumns(headers);
    return Resolved(colmap);
  }

  /** Lines 53-58: for each name, in any order, scan the columns in order and
      stop at the first whose lower-cased name it is. */
  method BuildColumnMap(headers: seq<string>, names: set<string>) returns (colmap: map<string, string>)
    ensures colmap == ColumnMapFor(headers, names)
  {
    colmap := map[];
    var todo := names;
    ghost var done: set<string> := {};
    while todo != {}
      invariant todo <= names && done == names - todo
      invariant colmap == ColumnMapFor(headers, done)
      decreases |todo|
    {
      var need :| need in todo;
      var k := 0;
      while k < |headers|
        invariant 0 <= k <= |headers|
        invariant forall j :: 0 <= j < k ==> Lower(headers[j]) != need
      {
        if Lower(headers[k]) == need {
          ColumnMapForFound(headers, done, need, k);
          colmap := colmap[need := headers[k]];
          break;
        }
        k := k + 1;
      }
      if k == |headers| {
        ColumnMapForNotFound(headers, done, need);
      }
      done := done + {need};
      todo := todo - {need};
    }
    assert done == names;
  }

  /** Looking up a name that the column at `k` matches first adds that column
      to the map. */
  lemma ColumnMapForFound(headers: seq<string>, done: set<string>, need: string, k: nat)
    requires k < |headers| && Lower(headers[k]) == need
    requires forall j :: 0 <= j < k ==> Lower(headers[j]) != need
    ensures ColumnMapFor(headers, done + {need}) == ColumnMapFor(headers, done)[need := headers[k]]
  {
    assert FirstHeader(headers, need) == Some(k);
  }

  /** Looking up a name that no column matches leaves the map as it was. */
  lemma ColumnMapForNotFound(headers: seq<string>, done: set<string>, need: string)
    requires forall j :: 0 <= j < |headers| ==> Lower(headers[j]) != need
    ensures ColumnMapFor(headers, done + {need}) == ColumnMapFor(headers, done)
  {
    assert FirstHeader(headers, need).None?;
  }

  /** The names the map covers are exactly the ones that are not missing. */
  lemma ColumnMapForKeys(headers: seq<string>, needs: set<string>)
    ensures ColumnMapFor(headers, needs).Keys == needs - MissingFrom(headers, needs)
  {
  }

  /** A subset is the whole set exactly when it is as large. */
  lemma SubsetOfSameSize<T>(a: set<T>, b: set<T>)
    requires a <= b
    ensures |a| == |b| <==> a == b
  {
    if a != b {
      var x :| x in b && x !in a;
      assert b == a + (b - a);
      assert x in b - a;
    }
  }

  /** The failure test's two halves agree: a required name is missing exactly
      when the column map has fewer entries than there are required names. */
  lemma ColumnMapIncomplete(headers: seq<string>)
    ensures MissingColumns(headers) != {} <==> |ColumnMap(headers)| != |Required|
    ensures MissingColumns(headers) == {} <==> ColumnMap(headers).Keys == Required
  {
    ColumnMapForKeys(headers, Required);
    SubsetOfSameSize(ColumnMap(headers).Keys, Required);
  }

  /** Every name some column matches maps to the first column, in column
      order, whose lower-cased name it is. */
  lemma ColumnMapPicksFirstMatch(headers: seq<string>, needs: set<string>, need: string)
    requires need in needs && need !in MissingFrom(headers, needs)
    ensures need in ColumnMapFor(headers, needs)
    ensures exists k :: && 0 <= k < |headers|
                        && ColumnMapFor(headers, needs)[need] == headers[k]
                        && Lower(headers[k]) == need
                        && forall j :: 0 <= j < k ==> Lower(headers[j]) != need
  {
    var k := FirstHeader(headers, need).value;
    assert ColumnMapFor(headers, needs)[need] == headers[k];
  }

  // ===========================================================================
  // Paths

  /** `resolve_path(p, root)`: `p` itself when it is absolute, `root / p`
      otherwise, printed in pathlib's normal form. */
  function ResolvePath(p: string, root: PurePath): string {
    var path := Parse(p);
    ToString(if path.absolute then path else Div(root, path))
  }

  /** An absolute path is kept: only its normal form is printed, so an
      absolute path already in normal form comes back unchanged. */
  lemma ResolveAbsolutePath(p: string, root: PurePath)
    requires StartsWith(p, "/")
    ensures ResolvePath(p, root) == Normalize(p)
    ensures Normalize(p) == p ==> ResolvePath(p, root) == p
  {
    ParseAbsolute(p);
  }

  /** A relative path is placed under the root: the result is rooted as the
      root is, and its parts are the root's parts followed by the path's. */
  lemma ResolveRelativePath(p: string, root: PurePath)
    requires !StartsWith(p, "/") && WellFormed(root)
    ensures Parse(ResolvePath(p, root)) == PurePath(root.absolute, root.parts + Parse(p).parts)
  {
    ParseWellFormed(p);
    ParseAbsolute(p);
    ParseToString(Div(root, Parse(p)));
  }

  // ===========================================================================
  // The design manifest

  /** `row[c]` for a column named `c`: the cell under the first column with
      that name. */
  function Field(headers: seq<string>, row: seq<string>, name: string): string
    requires |row| == |headers| && name in headers
  {
    if headers[0] == name then row[0] else Field(headers[1..], row[1..], name)
  }

  /** The field for the name of the column at `k`, when no earlier column
      has that name, is the cell at `k`. */
  lemma {:induction false} FieldAtFirstOccurrence(headers: seq<string>, row: seq<string>, k: nat)
    requires |row| == |headers| && k < |headers|
    requires forall j :: 0 <= j < k ==> headers[j] != headers[k]
    ensures Field(headers, row, headers[k]) == row[k]
  {
    if k > 0 {
      assert headers[1..][k - 1] == headers[k];
      FieldAtFirstOccurrence(headers[1..], row[1..], k - 1);
    }
  }

  /** A column map that names a column for every required name. */
  predicate MapsToColumns(headers: seq<string>, colmap: map<string, string>) {
    && MapsName(headers, colmap, "sample_id") && MapsName(headers, colmap, "donor")
    && MapsName(headers, colmap, "bin") && MapsName(headers, colmap, "r1") && MapsName(headers, colmap, "r2")
  }

  /** The map names a column for `name`. */
  predicate MapsName(headers: seq<string>, colmap: map<string, string>, name: string) {
    name in colmap && colmap[name] in headers
  }

  /** The resolved map names a column for every required name. */
  lemma ColumnMapMapsToColumns(headers: seq<string>)
    requires MissingColumns(headers) == {}
    ensures MapsToColumns(headers, ColumnMap(headers))
  {
    ColumnMapIncomplete(headers);
    ColumnMapForValues(headers, Required);
  }

  /** The map only names columns of the sheet. */
  lemma ColumnMapForValues(headers: seq<string>, needs: set<string>)
    ensures forall need :: need in ColumnMapFor(headers, needs) ==> ColumnMapFor(headers, needs)[need] in headers
  {
  }

  /** The manifest's column names, in order. */
  const ManifestColumns: seq<string> := ["sample", "fastq1", "fastq2", "label"]

  /** The fixed first line of the manifest: the column names joined by tabs,
      then a newline. */
  const ManifestHeader: string := Join(ManifestColumns, '\t') + "\n"

  /** The label of a sample, `donor{D}_bin{B}`. */
  function Label(donor: string, bin: string): string {
    "donor" + donor + "_bin" + bin
  }

  /** The four fields the manifest records for one row: sample ID, the two
      resolved read paths, the label. */
  function ManifestFields(headers: seq<string>, row: seq<string>, colmap: map<string, string>, root: PurePath): seq<string>
    requires MapsToColumns(headers, colmap) && |row| == |headers|
  {
    [Field(headers, row, colmap["sample_id"]),
     ResolvePath(Field(headers, row, colmap["r1"]), root),
     ResolvePath(Field(headers, row, colmap["r2"]), root),
     Label(Field(headers, row, colmap["donor"]), Field(headers, row, colmap["bin"]))]
  }

  function ManifestLine(headers: seq<string>, row: seq<string>, colmap: map<string, string>, root: PurePath): string
    requires MapsToColumns(headers, colmap) && |row| == |headers|
  {
    Join(ManifestFields(headers, row, colmap, root), '\t') + "\n"
  }

  /** The manifest's lines: the header, then one line per row in row order. */
  function Manifest(t: Table, colmap: map<string, string>, root: PurePath): seq<string>
    requires Rectangular(t) && MapsToColumns(t.headers, colmap)
  {
    [ManifestHeader] + ManifestRows(t, colmap, root, |t.rows|)
  }

  /** The lines of the first `n` rows, in row order. */
  function ManifestRows(t: Table, colmap: map<string, string>, root: PurePath, n: nat): (lines: seq<string>)
    requires Rectangular(t) && MapsToColumns(t.headers, colmap) && n <= |t.rows|
    ensures |lines| == n
  {
    if n == 0 then []
    else ManifestRows(t, colmap, root, n - 1) + [ManifestLine(t.headers, t.rows[n - 1], colmap, root)]
  }

  /** Line `r` of the manifest's row lines is row `r`'s line. */
  lemma {:induction false} ManifestRowAt(t: Table, colmap: map<string, string>, root: PurePath, n: nat, r: nat)
    requires Rectangular(t) && MapsToColumns(t.headers, colmap) && r < n <= |t.rows|
    ensures ManifestRows(t, colmap, root, n)[r] == ManifestLine(t.headers, t.rows[r], colmap, root)
  {
    if r < n - 1 {
      ManifestRowAt(t, colmap, root, n - 1, r);
    }
  }

  /** Lines 64-71: write the header, then for each row in turn its sample
      ID, its resolved r1 and r2 paths and its label, tab-separated. */
  method WriteManifest(t: Table, colmap: map<string, string>, root: PurePath) returns (lines: seq<string>)
    requires Rectangular(t) && MapsToColumns(t.headers, colmap)
    ensures lines == Manifest(t, colmap, root)
  {
    lines := [ManifestHeader];
    for r := 0 to |t.rows|
      invariant lines == [ManifestHeader] + ManifestRows(t, colmap, root, r)
    {
      var row := t.rows[r];
      var sid := Field(t.headers, row, colmap["sample_id"]);
      var r1 := ResolvePath(Field(t.headers, row, colmap["r1"]), root);
      var r2 := ResolvePath(Field(t.headers, row, colmap["r2"]), root);
      var sampleLabel := Label(Field(t.headers, row, colmap["donor"]), Field(t.headers, row, colmap["bin"]));
      var line := Join([sid, r1, r2, sampleLabel], '\t') + "\n";
      AppendAssoc([ManifestHeader], ManifestRows(t, colmap, root, r), [line]);
      lines := lines + [line];
    }
  }

  lemma AppendAssoc<T>(a: seq<T>, b: seq<T>, c: seq<T>)
    ensures (a + b) + c == a + (b + c)
  {
  }

  /** The manifest has the header and exactly one line per row; line `r + 1`
      reads back, split at its tabs, as the row's sample ID, its r1 and r2
      paths resolved against the root and its `donor{D}_bin{B}` label, taken
      from the columns the map names. */
  lemma ManifestReadsBack(t: Table, colmap: map<string, string>, root: PurePath, r: nat)
    requires Rectangular(t) && MapsToColumns(t.headers, colmap) && r < |t.rows|
    requires forall k :: 0 <= k < 4 ==> '\t' !in ManifestFields(t.headers, t.rows[r], colmap, root)[k]
    ensures var m := Manifest(t, colmap, root);
      && |m| == |t.rows| + 1
      && m[0] == ManifestHeader
      && var line := m[r + 1];
      && |line| >= 1 && line[|line| - 1] == '\n'
      && var fields := Split(line[..|line| - 1], '\t');
      && |fields| == 4
      && fields[0] == Field(t.headers, t.rows[r], colmap["sample_id"])
      && fields[1] == ResolvePath(Field(t.headers, t.rows[r], colmap["r1"]), root)
      && fields[2] == ResolvePath(Field(t.headers, t.rows[r], colmap["r2"]), root)
      && fields[3] == "donor" + Field(t.headers, t.rows[r], colmap["donor"]) + "_bin" + Field(t.headers, t.rows[r], colmap["bin"])
  {
    ManifestRowAt(t, colmap, root, |t.rows|, r);
    LineReadsBack(ManifestFields(t.headers, t.rows[r], colmap, root), '\t');
  }

  /** The header line names the four manifest columns. */
  lemma ManifestHeaderReadsBack()
    ensures |ManifestHeader| >= 1 && ManifestHeader[|ManifestHeader| - 1] == '\n'
    ensures Split(ManifestHeader[..|ManifestHeader| - 1], '\t') == ["sample", "fastq1", "fastq2", "label"]
  {
    assert '\t' !in ManifestColumns[0] && '\t' !in ManifestColumns[1]
      && '\t' !in ManifestColumns[2] && '\t' !in ManifestColumns[3];
    LineReadsBack(ManifestColumns, '\t');
  }

  /** Through the column map, a row's field for a name some column matches
      is the cell under the first column matching that name
      case-insensitively. */
  lemma FieldOfMappedColumn(headers: seq<string>, row: seq<string>, needs: set<string>, need: string)
    requires need in needs && need !in MissingFrom(headers, needs) && |row| == |headers|
    ensures need in ColumnMapFor(headers, needs) && ColumnMapFor(headers, needs)[need] in headers
    ensures exists k :: && 0 <= k < |headers|
                        && Lower(headers[k]) == need
                        && (forall j :: 0 <= j < k ==> Lower(headers[j]) != need)
                        && Field(headers, row, ColumnMapFor(headers, needs)[need]) == row[k]
  {
    var k := FirstHeader(headers, need).value;
    assert ColumnMapFor(headers, needs)[need] == headers[k];
    FieldAtFirstOccurrence(headers, row, k);
  }

  // ===========================================================================
  // Commands

  /** `outdir / name` for a plain file name. */
  function Child(dir: PurePath, name: string): PurePath {
    PurePath(dir.absolute, dir.parts + [name])
  }

  /** `count_cmd` (lines 73-80), with the count prefix `outdir / "mageck"` and
      the design file `outdir / "design.tsv"`. */
  function CountCommand(library: string, outdir: PurePath): seq<string> {
    ["mageck", "count", "-l", library, "-n", ToString(Child(outdir, "mageck")),
     "--sample-label", ToString(Child(outdir, "design.tsv")), "--fastq"]
  }

  /** `test_cmd` (lines 84-92). */
  function TestCommand(outdir: PurePath): seq<string> {
    ["mageck", "test", "-k", ToString(Child(outdir, "mageck")) + ".count.txt",
     "-t", "treatment", "-c", "control", "-n", ToString(Child(outdir, "mageck_test")),
     "--norm-method", "control", "--output-prefix", "mageck_test"]
  }

  /** The test command reads the table the count command writes: its `-k`
      is count's `-n` prefix followed by `.count.txt`; treatment and control
      are the fixed placeholders. */
  lemma TestReadsCountTable(library: string, outdir: PurePath)
    ensures var count, test := CountCommand(library, outdir), TestCommand(outdir);
      && |count| == 9 && |test| == 14
      && count[4] == "-n" && test[2] == "-k"
      && test[3] == count[5] + ".count.txt"
      && test[4] == "-t" && test[5] == "treatment"
      && test[6] == "-c" && test[7] == "control"
  {
  }

  /** Every path the commands name is a file directly inside the output
      directory, one of `mageck`, `design.tsv` and `mageck_test`. */
  lemma CommandOutputsInOutdir(library: string, outdir: PurePath)
    requires WellFormed(outdir)
    ensures Parse(CountCommand(library, outdir)[5]) == Child(outdir, "mageck")
    ensures Parse(CountCommand(library, outdir)[7]) == Child(outdir, "design.tsv")
    ensures Parse(TestCommand(outdir)[9]) == Child(outdir, "mageck_test")
  {
    CountOutputsInOutdir(library, outdir);
    TestOutputInOutdir(outdir);
  }

  lemma CountOutputsInOutdir(library: string, outdir: PurePath)
    requires WellFormed(outdir)
    ensures Parse(CountCommand(library, outdir)[5]) == Child(outdir, "mageck")
    ensures Parse(CountCommand(library, outdir)[7]) == Child(outdir, "design.tsv")
  {
    OutputNamesValid();
    ChildReadsBack(outdir, "mageck");
    ChildReadsBack(outdir, "design.tsv");
  }

  lemma TestOutputInOutdir(outdir: PurePath)
    requires WellFormed(outdir)
    ensures Parse(TestCommand(outdir)[9]) == Child(outdir, "mageck_test")
  {
    OutputNamesValid();
    ChildReadsBack(outdir, "mageck_test");
  }

  lemma OutputNamesValid()
    ensures ValidPart("mageck") && ValidPart("design.tsv") && ValidPart("mageck_test")
  {
  }

  /** A file directly inside a directory prints as a path that parses back to
      that directory plus the file's name. */
  lemma ChildReadsBack(dir: PurePath, name: string)
    requires WellFormed(dir) && ValidPart(name)
    ensures Parse(ToString(Child(dir, name))) == Child(dir, name)
  {
    ParseToString(Child(dir, name));
  }

  /** `Child` is pathlib's `/` with a plain name. */
  lemma ChildIsDiv(dir: PurePath, name: string)
    requires ValidPart(name)
    ensures Child(dir, name) == Div(dir, Parse(name))
  {
    DivByName(dir, name);
  }

  // ===========================================================================
  // The run

  datatype Step =
    | MakeDirs(dir: string)               // outdir.mkdir(parents=True, exist_ok=True)
    | BadColumns(seen: set<string>)       // SystemExit naming the required and the seen columns
    | WriteFile(path: string, lines: seq<string>)
    | Info(design: string)                // "[info] Prepared design at ..."
    | Preview(argv: seq<string>)          // a command printed, not run
    | WarnNotExecuted                     // the two "[warn]" lines
    | Exec(argv: seq<string>, cwd: string)  // `sh(cmd, cwd)`, which the script defines and never calls

  /** The steps after a successful column resolution: the manifest written,
      the design reported, both commands previewed, then the warning unless
      `--dry-run` was given. */
  function SuccessSteps(design: string, manifest: seq<string>, count: seq<string>, test: seq<string>, dryRun: bool): seq<Step> {
    [WriteFile(design, manifest), Info(design), Preview(count), Preview(test)]
    + (if dryRun then [] else [WarnNotExecuted])
  }

  /** What `main` does after parsing its options, given the sample sheet. */
  function DesignPlan(opts: Options, t: Table): seq<Step>
    requires Rectangular(t)
  {
    var outdir := Parse(opts.outdir);
    [MakeDirs(ToString(outdir))] +
    if MissingColumns(t.headers) != {} then [BadColumns(set h | h in t.headers)]
    else
      ColumnMapMapsToColumns(t.headers);
      SuccessSteps(ToString(Child(outdir, "design.tsv")),
                   Manifest(t, ColumnMap(t.headers), Parse(opts.fastqRoot)),
                   CountCommand(opts.library, outdir), TestCommand(outdir), opts.dryRun)
  }

  /** `main`: create the output directory, resolve the columns, write the
      manifest, build both commands and print them. */
  method BuildDesign(opts: Options, t: Table) returns (steps: seq<Step>)
    requires Rectangular(t)
    ensures steps == DesignPlan(opts, t)
  {
    var outdir := Parse(opts.outdir);
    steps := [MakeDirs(ToString(outdir))];
    var fastqRoot := Parse(opts.fastqRoot);
    var columns := ResolveColumns(t.headers);
    if columns.Unresolved? {
      steps := steps + [BadColumns(columns.seen)];
      return;
    }
    var colmap := columns.colmap;
    var lines := WriteManifest(t, colmap, fastqRoot);
    var designTsv := Child(outdir, "design.tsv");
    ghost var start := steps;
    steps := steps + [WriteFile(ToString(designTsv), lines)];
    var countCmd := CountCommand(opts.library, outdir);
    var testCmd := TestCommand(outdir);
    steps := steps + [Info(ToString(designTsv)), Preview(countCmd), Preview(testCmd)];
    ghost var previewed := steps;
    if !opts.dryRun {
      steps := steps + [WarnNotExecuted];
    }
    AppendSuccessSteps(start, previewed, steps, ToString(designTsv), lines, countCmd, testCmd, opts.dryRun);
  }

  /** The steps `BuildDesign` appends after resolution are `SuccessSteps`. */
  lemma AppendSuccessSteps(start: seq<Step>, previewed: seq<Step>, steps: seq<Step>, design: string,
                           manifest: seq<string>, count: seq<string>, test: seq<string>, dryRun: bool)
    requires previewed == start + [WriteFile(design, manifest)] + [Info(design), Preview(count), Preview(test)]
    requires steps == if dryRun then previewed else previewed + [WarnNotExecuted]
    ensures steps == start + SuccessSteps(design, manifest, count, test, dryRun)
  {
  }

  // ===========================================================================
  // Properties of the run

  /** The steps after resolution: the manifest first, then the report and
      the two previews, then the warning exactly when it is not a dry run; no
      failure and no execution among them. */
  lemma SuccessStepsShape(design: string, manifest: seq<string>, count: seq<string>, test: seq<string>, dryRun: bool)
    ensures var s := SuccessSteps(design, manifest, count, test, dryRun);
      && |s| == (if dryRun then 4 else 5)
      && s[0] == WriteFile(design, manifest) && s[1] == Info(design)
      && s[2] == Preview(count) && s[3] == Preview(test)
      && (!dryRun ==> s[4] == WarnNotExecuted)
      && forall k :: 0 <= k < |s| ==> !s[k].Exec? && !s[k].BadColumns?
  {
  }

  /** The run fails exactly when a required column is missing, and then it
      has created the output directory and done nothing else: no manifest, no
      command. */
  lemma FailsOnlyOnMissingColumns(opts: Options, t: Table)
    requires Rectangular(t)
    ensures var plan := DesignPlan(opts, t);
      && plan[0] == MakeDirs(Normalize(opts.outdir))
      && ((exists k :: 0 <= k < |plan| && plan[k].BadColumns?) <==> MissingColumns(t.headers) != {})
      && (MissingColumns(t.headers) != {} ==> plan == [plan[0], BadColumns(set h | h in t.headers)])
  {
    var plan := DesignPlan(opts, t);
    if MissingColumns(t.headers) != {} {
      assert plan[1].BadColumns?;
    } else {
      ResolvedPlanIsClean(opts, t);
    }
  }

  /** A resolved run's plan holds neither a failure nor an execution. */
  lemma ResolvedPlanIsClean(opts: Options, t: Table)
    requires Rectangular(t) && MissingColumns(t.headers) == {}
    ensures var plan := DesignPlan(opts, t);
      forall k :: 0 <= k < |plan| ==> !plan[k].Exec? && !plan[k].BadColumns?
  {
    PlanAfterResolution(opts, t);
    var outdir := Parse(opts.outdir);
    var s := SuccessSteps(ToString(Child(outdir, "design.tsv")),
                          Manifest(t, ColumnMap(t.headers), Parse(opts.fastqRoot)),
                          CountCommand(opts.library, outdir), TestCommand(outdir), opts.dryRun);
    PrependClean(MakeDirs(ToString(outdir)), s);
  }

  lemma PrependClean(first: Step, s: seq<Step>)
    requires !first.Exec? && !first.BadColumns?
    requires forall k :: 0 <= k < |s| ==> !s[k].Exec? && !s[k].BadColumns?
    ensures forall k :: 0 <= k < |[first] + s| ==> !([first] + s)[k].Exec? && !([first] + s)[k].BadColumns?
  {
    forall k | 0 < k < |[first] + s| ensures ([first] + s)[k] == s[k - 1] {
    }
  }

  /** A resolved run's plan: the output directory, then the steps after
      resolution, built from the resolved column map. */
  lemma PlanAfterResolution(opts: Options, t: Table)
    requires Rectangular(t) && MissingColumns(t.headers) == {}
    ensures MapsToColumns(t.headers, ColumnMap(t.headers))
    ensures var outdir := Parse(opts.outdir);
      var s := SuccessSteps(ToString(Child(outdir, "design.tsv")),
                            Manifest(t, ColumnMap(t.headers), Parse(opts.fastqRoot)),
                            CountCommand(opts.library, outdir), TestCommand(outdir), opts.dryRun);
      && DesignPlan(opts, t) == [MakeDirs(ToString(outdir))] + s
      && |s| == (if opts.dryRun then 4 else 5)
      && s[0] == WriteFile(ToString(Child(outdir, "design.tsv")), Manifest(t, ColumnMap(t.headers), Parse(opts.fastqRoot)))
      && s[2] == Preview(CountCommand(opts.library, outdir)) && s[3] == Preview(TestCommand(outdir))
      && (!opts.dryRun <==> s[|s| - 1] == WarnNotExecuted)
      && forall k :: 0 <= k < |s| ==> !s[k].Exec? && !s[k].BadColumns?
  {
    ColumnMapMapsToColumns(t.headers);
    var outdir := Parse(opts.outdir);
    SuccessStepsShape(ToString(Child(outdir, "design.tsv")),
                      Manifest(t, ColumnMap(t.headers), Parse(opts.fastqRoot)),
                      CountCommand(opts.library, outdir), TestCommand(outdir), opts.dryRun);
  }

  /** No command is ever executed, with or without `--dry-run`. */
  lemma NeverExecutes(opts: Options, t: Table)
    requires Rectangular(t)
    ensures forall k :: 0 <= k < |DesignPlan(opts, t)| ==> !DesignPlan(opts, t)[k].Exec?
  {
    if MissingColumns(t.headers) == {} {
      ResolvedPlanIsClean(opts, t);
    }
  }

  /** `--dry-run` changes nothing but the warning: the other steps are the
      same either way. */
  lemma DryRunOnlyDropsWarning(opts: Options, t: Table)
    requires Rectangular(t) && MissingColumns(t.headers) == {}
    ensures DesignPlan(opts.(dryRun := false), t) == DesignPlan(opts.(dryRun := true), t) + [WarnNotExecuted]
  {
    ColumnMapMapsToColumns(t.headers);
    var outdir := Parse(opts.outdir);
    var first := [MakeDirs(ToString(outdir))];
    var design, manifest := ToString(Child(outdir, "design.tsv")), Manifest(t, ColumnMap(t.headers), Parse(opts.fastqRoot));
    var count, test := CountCommand(opts.library, outdir), TestCommand(outdir);
    assert DesignPlan(opts.(dryRun := false), t) == first + SuccessSteps(design, manifest, count, test, false);
    assert DesignPlan(opts.(dryRun := true), t) == first + SuccessSteps(design, manifest, count, test, true);
    AppendAssoc(first, SuccessSteps(design, manifest, count, test, true), [WarnNotExecuted]);
    SuccessStepsWarning(design, manifest, count, test);
  }

  lemma SuccessStepsWarning(design: string, manifest: seq<string>, count: seq<string>, test: seq<string>)
    ensures SuccessSteps(design, manifest, count, test, false) == SuccessSteps(design, manifest, count, test, true) + [WarnNotExecuted]
  {
  }

  /** The surface-protein annotation, the thread count and the sample-sheet
      path (read by the caller) do not influence the plan. */
  lemma UnusedOptions(opts: Options, t: Table, cspa: Option<string>, threads: int, sampleInfo: string)
    requires Rectangular(t)
    ensures DesignPlan(opts.(cspa := cspa, threads := threads, sampleInfo := sampleInfo), t) == DesignPlan(opts, t)
  {
  }
}
