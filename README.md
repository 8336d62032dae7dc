# MAGeCK planning core of the gwas_ko screen scripts

This project models the decision logic of two small Python drivers for a
genome-wide CRISPR knock-out screen. Both drivers wrap the external MAGeCK
command-line tool.

- **Sample Resolver** (`gwas_ko/scripts/run_mageck.py`, module
  `SampleResolver`). It covers four things:
  - rewriting the guide library with synthetic `sgRNA_{i}` IDs;
  - selecting one donor/condition group from the sample sheet, case- and
    space-insensitively;
  - splitting that group into Q1 and Q4, each sorted by sample number, and
    pairing the two sides by position;
  - finding each sample's FASTQ file by its `"{sample}_S"` prefix, then
    running `mageck count` and `mageck test` in a per-replicate directory
    `rep{i+1}`.
- **Design Builder** (`gwas_ko/scripts/run_mageck_clean.py`, module
  `DesignBuilder`). It covers three things:
  - resolving the required columns `sample_id, donor, bin, r1, r2`
    case-insensitively, where the first matching header wins;
  - writing the design manifest: a fixed header, then one line per sample
    holding its ID, its r1/r2 paths resolved against the FASTQ root, and the
    label `donor{D}_bin{B}`;
  - building the `count` and `test` command lines, which it prints and never
    runs.

Nothing is executed. Each run is modelled as a **plan**: the sequence of
steps the script performs, computed from plain inputs. The inputs are:

- the sample sheet as a sequence of records (or headers plus rows of cells);
- the FASTQ directory listing as a sequence of names;
- the command-line arguments.

A step is one of: a directory created, a diagnostic, a file written, a
command previewed, or a command launched in a directory.

The imperative parts of the scripts are methods proved against plan
functions:

- the replicate loop (`SampleResolver.RunReplicates`, whose body is the
  method `SampleResolver.RunReplicate`);
- the nested column-map loops with their early `break`
  (`DesignBuilder.BuildColumnMap`);
- the manifest row loop (`DesignBuilder.WriteManifest`).

Lemmas then state what the scripts promise about those plans.

Supporting modules:

- `Strings` models Python's `strip`, `lower`, `replace(' ', '')`,
  `startswith`, `str(int)`, `join` and `split`.
- `Paths` models POSIX `os.path.join` and `pathlib`'s parse/print/`/`
  operations.
- `Wrappers` holds an `Option` type.

Four facts about the code:

- Table-side values are not stripped for matching. Only spaces are removed
  and letters lower-cased.
- A failing subprocess ends the whole run, not just one replicate, and the
  process exits with status 1.
- The Design Builder never runs its commands. There is no override.
- The column failure reports the required set and the columns seen, not the
  missing ones.

## Model

| member | source | states |
|---|---|---|
| `SampleResolver.LibraryReadsBack` | gwas_ko/scripts/run_mageck.py:12-17 | The library has exactly one line per input row and no header. Line `i`, split at its tabs, gives three fields: the ID text `sgRNA_{i+1}`, which reads back to the number `i + 1`, then the `i`-th input's sequence and gene. |
| `SampleResolver.LibraryLineCount` | gwas_ko/scripts/run_mageck.py:12-17 | For any input, the library has exactly one line per row. An empty input gives an empty file, with no header line. |
| `SampleResolver.GuideIdReadsBack` | gwas_ko/scripts/run_mageck.py:16 | `sgRNA_{n}` contains no tab, and reading its digits back gives `n`. |
| `SampleResolver.LibraryIdsDistinct` | gwas_ko/scripts/run_mageck.py:16 | No two library rows share a guide ID. |
| `SampleResolver.SelectCounts` | gwas_ko/scripts/run_mageck.py:23-24 | A boolean-masked table keeps each accepted row as often as the table holds it, and nothing else. |
| `SampleResolver.MatchingRowsSelects` | gwas_ko/scripts/run_mageck.py:23-26 | The group holds exactly the matching rows, with their multiplicities. It is empty exactly when no row matches. |
| `SampleResolver.QueryKeyOfPlainText` | gwas_ko/scripts/run_mageck.py:23-24 | If a query's only whitespace is plain spaces, it normalises exactly as a table value would. |
| `SampleResolver.QueryKeyIsStrippedTableKey` | gwas_ko/scripts/run_mageck.py:23-24 | For every query, its normal form is the table-side normal form (spaces removed, lower-cased) with edge whitespace then stripped. |
| `SampleResolver.MatchIgnoresQueryCaseAndSpaces` | gwas_ko/scripts/run_mageck.py:23-24 | For any queries, two that agree up to case and spaces select the same rows. |
| `SampleResolver.MatchIgnoresQueryEdgeWhitespace` | gwas_ko/scripts/run_mageck.py:23-24 | Stripping the queries first selects the same rows, whatever whitespace they carry. |
| `SampleResolver.MatchAgreesUpToCaseAndSpaces` | gwas_ko/scripts/run_mageck.py:23-24 | For any queries, a row matches exactly when its donor's and its condition's table-side normal forms equal the stripped table-side normal forms of the two queries. |
| `SampleResolver.MatchPlainQueries` | gwas_ko/scripts/run_mageck.py:23-24 | For queries whose only whitespace is spaces, a row matches exactly when its donor and its condition equal the queries up to case and spaces. |
| `SampleResolver.NoMatchPlansNothing` | gwas_ko/scripts/run_mageck.py:26-28 | The plan is the single no-match diagnostic exactly when no row matches. That plan has no directory and no command. |
| `SampleResolver.WithQuartile` | gwas_ko/scripts/run_mageck.py:32-33 | The result holds exactly the rows carrying the quartile mark, with their multiplicities. |
| `SampleResolver.SortSortsAndPermutes` | gwas_ko/scripts/run_mageck.py:32-33 | Sorting by sample gives an ascending permutation of its input. |
| `SampleResolver.InsertPermutes` | gwas_ko/scripts/run_mageck.py:32-33 | Inserting into the sorted prefix adds the row and loses nothing. |
| `SampleResolver.InsertSorted` | gwas_ko/scripts/run_mageck.py:32-33 | Inserting into an ascending sequence keeps it ascending. |
| `SampleResolver.Side` | gwas_ko/scripts/run_mageck.py:32-33 | `q1`/`q4` hold exactly the group's rows with that mark, sorted ascending by sample number. |
| `SampleResolver.MismatchPlansNothing` | gwas_ko/scripts/run_mageck.py:35-37 | For a matched group, the plan is the single mismatch diagnostic exactly when the Q1 and Q4 sizes differ. That plan has no directory and no command. |
| `SampleResolver.RunMageck` | gwas_ko/scripts/run_mageck.py:19-82 | Returns the plan of `run_mageck`: no-match diagnostic, mismatch diagnostic, or the replicate loop's steps. |
| `SampleResolver.RunReplicates` | gwas_ko/scripts/run_mageck.py:39-82 | The loop's steps are the concatenation of one block per replicate `i`. Each block pairs the `i`-th Q1 with the `i`-th Q4 sample. The loop body, one pass, is the method `RunReplicate`. |
| `SampleResolver.BlockOfReplicate` | gwas_ko/scripts/run_mageck.py:39-42 | Block `i` is built from the `i`-th sample of each side and the files found for those two samples. |
| `SampleResolver.ReplicateContents` | gwas_ko/scripts/run_mageck.py:45-80 | A block first creates `rep{i+1}` and runs something exactly when both files were found. A skipped block's diagnostic names both samples. Otherwise: count in that directory with the Q1 path, then the Q4 path, under the FASTQ directory, and labels `control,treatment`; then test, reading count's output. |
| `SampleResolver.RunBlockShape` | gwas_ko/scripts/run_mageck.py:60-80 | A running block is: the directory, then count, then test. Test's `-k` is count's `-n` prefix plus `.count.txt`, followed by `-t treatment -c control -n {prefix}_test`. Both run in the created directory. |
| `SampleResolver.FirstWithPrefixFindsFirst` | gwas_ko/scripts/run_mageck.py:50-51 | Finds nothing exactly when no name has the prefix. Otherwise it finds a name with the prefix, and no earlier name has it. |
| `SampleResolver.FindFastqFindsFirst` | gwas_ko/scripts/run_mageck.py:50-51 | A FASTQ is found exactly when some listed name starts with `"{sample}_S"`. It is then the first such name. |
| `SampleResolver.SkipIsPerReplicate` | gwas_ko/scripts/run_mageck.py:45-55 | In the loop's plan, replicate `i`'s directory is always created. Commands run there exactly when both of its files are found, whatever the other replicates do. |
| `SampleResolver.SkippedReplicateRunsNothing` | gwas_ko/scripts/run_mageck.py:53-55 | A replicate missing a file has no command anywhere in the plan running in its directory. |
| `SampleResolver.PlanSkipIsPerReplicate` | gwas_ko/scripts/run_mageck.py:39-55 | The same per-replicate statement, for the whole run of `run_mageck`. |
| `SampleResolver.GroupDirInjective` | gwas_ko/scripts/run_mageck.py:45 | Different replicates get different directories. |
| `SampleResolver.RepDirNeverMatches` | gwas_ko/scripts/run_mageck.py:45-51 | A created `rep{i+1}` directory never carries a FASTQ prefix, so creating it cannot change a later lookup. |
| `SampleResolver.PlanOrdering` | gwas_ko/scripts/run_mageck.py:44-80 | In every plan, each test directly follows the count it reads from. Every command runs in a directory created earlier. Every missing-FASTQ diagnostic comes right after the creation of its own replicate's directory, `rep{i+1}` under the FASTQ directory. |
| `SampleResolver.RunUntilFailure` | gwas_ko/scripts/run_mageck.py:70-80 | `check=True`: the steps actually performed are a prefix of the plan that ends right after the first failing command, and no earlier command failed. |
| `SampleResolver.TestRunsOnlyAfterCountSucceeded` | gwas_ko/scripts/run_mageck.py:63-80 | Whatever fails, a test is launched only right after the count that feeds it, and only when that count succeeded. |
| `SampleResolver.EntryPoint` | gwas_ko/scripts/run_mageck.py:84-93 | With an argument count other than two: status 1 and only the usage step. Otherwise: the steps of `run_mageck`'s plan on the two arguments, up to and including the first failing command. Status 1 exactly when the argument count is wrong or a command failed, else 0. |
| `SampleResolver.RunChecked` | gwas_ko/scripts/run_mageck.py:70-80 | `check=True` commands: the steps performed stop at the first failing command, and the status is 1 exactly when a performed command failed, else 0. |
| `SampleResolver.StoppedAtFailure` | gwas_ko/scripts/run_mageck.py:70-80 | A run contains a failing command exactly when it ends with one. |
| `Strings.DecimalValueOfNatToString` | gwas_ko/scripts/run_mageck.py:16 | `int(str(n)) == n` for the decimal text of a natural number. This is what reads a guide ID `sgRNA_{n}` back to `n`; the same fact makes the `rep{i+1}` names of line 40 distinct. |
| `Strings.LowerRemoveSpacesCommute` | gwas_ko/scripts/run_mageck.py:23-24 | Lower-casing and removing spaces commute. This is why the two normalisation orders agree. |
| `Strings.StripCommutes` | gwas_ko/scripts/run_mageck.py:23-24 | `strip()` commutes with removing spaces and with lower-casing. |
| `Strings.StripIdempotent` | gwas_ko/scripts/run_mageck.py:23-24 | Stripping twice gives the same text as stripping once. |
| `Strings.StripThenRemoveSpaces` | gwas_ko/scripts/run_mageck.py:23-24 | For text whose only whitespace is spaces, stripping first changes nothing once the spaces are removed. |
| `Strings.SplitJoin` | gwas_ko/scripts/run_mageck_clean.py:71 | Splitting a tab-joined line gives its fields back, provided no field holds a tab. |
| `Paths.PosixJoin` | gwas_ko/scripts/run_mageck.py:45-58 | `os.path.join`: an absolute right side wins. Otherwise the result starts with the left side, and it always ends with the right side. |
| `Paths.PosixJoinRightInjective` | gwas_ko/scripts/run_mageck.py:45 | Joining different relative names onto one directory gives different paths. |
| `Paths.ParseToString` | gwas_ko/scripts/run_mageck_clean.py:39-41 | Printing a pathlib path and parsing it again gives the same path. |
| `Paths.NormalizeIdempotent` | gwas_ko/scripts/run_mageck_clean.py:39-41 | `str(Path(str(Path(s)))) == str(Path(s))`. |
| `Paths.ParseAbsolute` | gwas_ko/scripts/run_mageck_clean.py:40-41 | A parsed path is absolute exactly when the text starts with `/`. |
| `Paths.Div` | gwas_ko/scripts/run_mageck_clean.py:41 | `root / p` is absolute when either side is, and it keeps paths well formed. |
| `DesignBuilder.ResolveAbsolutePath` | gwas_ko/scripts/run_mageck_clean.py:39-41 | An absolute path is kept, in pathlib's normal form. When it is already in normal form it comes back unchanged. |
| `DesignBuilder.ResolveRelativePath` | gwas_ko/scripts/run_mageck_clean.py:39-41 | A relative path is placed under the root: same rootedness, with the root's parts followed by the path's. |
| `DesignBuilder.LoweredHeaders` | gwas_ko/scripts/run_mageck_clean.py:51 | A name is among the lower-cased headers exactly when some header lower-cases to it. |
| `DesignBuilder.MissingFrom` | gwas_ko/scripts/run_mageck_clean.py:51 | `missing` is exactly the required names that no header lower-cases to. |
| `DesignBuilder.FirstHeader` | gwas_ko/scripts/run_mageck_clean.py:55-58 | The first header, in order, whose lower-cased form is the name. None exactly when there is none. |
| `DesignBuilder.BuildColumnMap` | gwas_ko/scripts/run_mageck_clean.py:53-58 | The nested loops with `break` build exactly the map from each matched name to its first matching header. |
| `DesignBuilder.ColumnMapForFound` | gwas_ko/scripts/run_mageck_clean.py:55-58 | Breaking at the first matching column adds that column to the map. |
| `DesignBuilder.ColumnMapForNotFound` | gwas_ko/scripts/run_mageck_clean.py:55-58 | A name that no column matches adds nothing. |
| `DesignBuilder.ColumnMapForKeys` | gwas_ko/scripts/run_mageck_clean.py:53-58 | The map's keys are exactly the names that are not missing. |
| `DesignBuilder.ColumnMapPicksFirstMatch` | gwas_ko/scripts/run_mageck_clean.py:53-58 | Every matched name maps to the first header, in header order, whose lower-cased form it is. |
| `DesignBuilder.ColumnMapIncomplete` | gwas_ko/scripts/run_mageck_clean.py:59 | A name is missing exactly when the map has fewer entries than there are required names. So the two halves of the failure test agree. |
| `DesignBuilder.ColumnMapMapsToColumns` | gwas_ko/scripts/run_mageck_clean.py:53-60 | Once nothing is missing, the map names a sheet column for each of the five required names. |
| `DesignBuilder.ResolveColumns` | gwas_ko/scripts/run_mageck_clean.py:50-60 | Fails exactly when some required name has no case-insensitive header, then reporting the columns seen. Otherwise returns the first-match column map, which covers all five names. |
| `DesignBuilder.FieldAtFirstOccurrence` | gwas_ko/scripts/run_mageck_clean.py:67-70 | A row's cell for a column name is the cell under that name's first occurrence. |
| `DesignBuilder.FieldOfMappedColumn` | gwas_ko/scripts/run_mageck_clean.py:66-70 | Through the map, a row's field for a required name is its cell under the first header matching that name case-insensitively. |
| `DesignBuilder.ManifestRowAt` | gwas_ko/scripts/run_mageck_clean.py:66-71 | Row line `r` of the manifest is row `r`'s line, in input order. |
| `DesignBuilder.WriteManifest` | gwas_ko/scripts/run_mageck_clean.py:63-71 | The loop writes the fixed header, then one line per row, in row order. Each line is the row's sample ID, resolved r1, resolved r2 and label; `ManifestReadsBack` shows how it reads back. |
| `DesignBuilder.ManifestReadsBack` | gwas_ko/scripts/run_mageck_clean.py:64-71 | The manifest has the header and one line per row. Line `r + 1`, split at its tabs, has four fields: the sample ID, r1 and r2 resolved against the root, and `donor{D}_bin{B}`, taken from the mapped columns. |
| `DesignBuilder.ManifestHeaderReadsBack` | gwas_ko/scripts/run_mageck_clean.py:65 | The header line's fields are `sample`, `fastq1`, `fastq2`, `label`. |
| `DesignBuilder.TestReadsCountTable` | gwas_ko/scripts/run_mageck_clean.py:73-92 | Test's `-k` is count's `-n` prefix, `outdir/mageck`, plus `.count.txt`. `-t`/`-c` are the placeholders `treatment`/`control`. |
| `DesignBuilder.CommandOutputsInOutdir` | gwas_ko/scripts/run_mageck_clean.py:73-92 | The count prefix, the design file and the test prefix are the files `mageck`, `design.tsv` and `mageck_test` directly inside the output directory. |
| `DesignBuilder.ChildReadsBack` | gwas_ko/scripts/run_mageck_clean.py:63 | A file directly inside the output directory prints as a path that parses back to it. |
| `DesignBuilder.ChildIsDiv` | gwas_ko/scripts/run_mageck_clean.py:63 | `outdir / "design.tsv"` is the directory's parts plus that one name. |
| `DesignBuilder.BuildDesign` | gwas_ko/scripts/run_mageck_clean.py:43-102 | Returns the plan of `main` after option parsing: output directory, then the column failure or the manifest, report, previews and warning. |
| `DesignBuilder.SuccessStepsShape` | gwas_ko/scripts/run_mageck_clean.py:94-102 | After resolution, the steps in order are: manifest, report, count preview, test preview, then the warning only when not a dry run. None of them is a failure or an execution. |
| `DesignBuilder.FailsOnlyOnMissingColumns` | gwas_ko/scripts/run_mageck_clean.py:45-64 | The run fails exactly when a required column is missing. It then stops right after creating the output directory: no manifest and no command. |
| `DesignBuilder.PlanAfterResolution` | gwas_ko/scripts/run_mageck_clean.py:62-102 | A resolved run is the output directory followed by the success steps, built from the first-match column map. |
| `DesignBuilder.ResolvedPlanIsClean` | gwas_ko/scripts/run_mageck_clean.py:94-102 | A resolved run's plan has neither a failure nor an execution. |
| `DesignBuilder.NeverExecutes` | gwas_ko/scripts/run_mageck_clean.py:24-26 | No plan ever executes a command, with or without `--dry-run`: `sh` is never reached. |
| `DesignBuilder.DryRunOnlyDropsWarning` | gwas_ko/scripts/run_mageck_clean.py:99-101 | `--dry-run` changes only the trailing warning. |
| `DesignBuilder.UnusedOptions` | gwas_ko/scripts/run_mageck_clean.py:28-37 | `--cspa` and `--threads` have no influence on the plan. Neither does the `--sample-info` path, because the sheet's contents are passed in as the table. |

## Left out

- Reading and writing files is not modelled: pandas CSV/TSV reading and `to_csv`/`open` writing. Tables come in as records or rows of strings, and files go out as sequences of lines.
- Bad input data is not modelled: CSV quoting of fields that hold tabs, quotes or newlines, pandas cell typing (numbers, NaN) and the `str(...)` of typed cells. Reading a line back assumes its fields hold no tab.
- The filesystem is not modelled: `os.listdir`, `os.makedirs` and `Path.mkdir`. The listing is a parameter, fixed for the whole run, so every lookup sees the same names in the same order. That `os.listdir` keeps the other entries and their order after a `makedirs` is an assumption of the model. `RepDirNeverMatches` shows only that a created `rep{i+1}` name can never be the one a lookup finds.
- `subprocess.run` and MAGeCK itself are not modelled. Which commands fail is a parameter. A failing command stops the run right after itself (`RunUntilFailure`) and makes the exit status 1 (`RunChecked`).
- `argparse` is represented by the `Options` record; defaults, help text and type conversion are not modelled.
- The wording of printed progress, diagnostic and usage messages is not modelled. `SampleResolver`'s progress prints are not steps. In `DesignBuilder`, the `[info] Example commands` line that introduces the previews is not a step, and the two `[warn]` lines are one step.
- `sample_info_file` and `base_dir`: the Sample Resolver's base directory is a parameter (`BaseDir` at the entry point), and the sheet is passed in as rows.
- `SampleResolver.SortSortsAndPermutes`: is sorted plus a permutation only. pandas' default sort is not stable, so the order of rows with equal sample numbers is not claimed.
- `Strings.Lower`: lower-cases ASCII letters only. Python's `str.lower()` also folds other Unicode letters.
- `Paths.Parse`: a leading `//`, which POSIX pathlib keeps as a special root, is treated like `/`. So `--outdir //x` prints as `/x` here, and so does the `resolve_path` of such a path.
- `SampleResolver.ReplicateBlock`: skips a replicate only when a name is missing. `not q1_fastq` would also skip an empty name, but an empty name is never found, because every match starts with the non-empty prefix `"{sample}_S"`.
- `DesignBuilder.Field`: `pd.read_csv` renames duplicate headers (`X`, `X.1`). The model's `Table` may still hold duplicate names, and `Field` then takes the first column of that name.
- `DesignBuilder.CountCommand`: kept as written, ending in a bare `--fastq` with no files. The source flags it as provisional.
- `sh` (run_mageck_clean.py:24-26) is never called, so it appears only as the step kind `Exec` that no plan contains.
