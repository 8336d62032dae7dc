/** The Sample Resolver (gwas_ko/scripts/run_mageck.py): it writes the MAGeCK
    guide library, selects one donor/condition group from the sample sheet,
    pairs its Q1 and Q4 samples by position, finds each sample's FASTQ file by
    name and runs `mageck count` then `mageck test` for every pair.

    Nothing is run here: the run is a plan, a sequence of steps (a directory
    created, a diagnostic printed, a command launched in a directory). */
module SampleResolver {
  import opened Wrappers
  import opened Strings
  import opened Paths

  /** The configuration fixed at module level in the script (lines 7-8). */
  const BaseDir: string := "/data/JE_misc/GW_screen/"

  /** `library_file`: the guide library under the base directory. */
  function LibraryFile(baseDir: string): string {
    PosixJoin(baseDir, "brunello_library.txt")
  }

  // ===========================================================================
  // Library file

  /** One row of the input library table: the columns `sgRNA Target Sequence`
      and `Target Gene Symbol`. */
  datatype LibraryEntry = LibraryEntry(sequence: string, gene: string)

  /** One row of the library MAGeCK reads: guide ID, sequence, gene. */
  datatype GuideRow = GuideRow(id: string, sequence: string, gene: string)

  /** The synthetic guide ID `sgRNA_{n}`. */
  function GuideId(n: nat): string {
    "sgRNA_" + NatToString(n)
  }

  /** The number a guide ID carries, if it has the `sgRNA_{n}` form. */
  function GuideNumber(id: string): Option<nat> {
    if StartsWith(id, "sgRNA_") && |id| > 6 && IsDigits(id[6..]) then Some(DecimalValue(id[6..]))
    else None
  }

  /** `generate_library_file`: the two selected columns, renamed, with a guide
      ID column `sgRNA_1`, `sgRNA_2`, ... inserted in front. */
  function GenerateLibrary(entries: seq<LibraryEntry>): seq<GuideRow> {
    seq(|entries|, i requires 0 <= i < |entries| =>
      GuideRow(GuideId(i + 1), entries[i].sequence, entries[i].gene))
  }

  /** A field the TSV writer emits as it is (it quotes the others). */
  predicate PlainField(s: string) {
    '\t' !in s && '\n' !in s && '\r' !in s && '"' !in s
  }

  /** `to_csv(sep='\t', index=False, header=False)`: one line per row and
      no header line. */
  function LibraryLines(rows: seq<GuideRow>): seq<string> {
    seq(|rows|, i requires 0 <= i < |rows| =>
      Join([rows[i].id, rows[i].sequence, rows[i].gene], '\t') + "\n")
  }

  /** The library file has exactly one line per input row, and line `i`,
      split at its tabs, gives back the guide ID numbered `i + 1` and the
      `i`-th input's sequence and gene. */
  lemma LibraryReadsBack(entries: seq<LibraryEntry>, i: nat)
    requires i < |entries|
    requires PlainField(entries[i].sequence) && PlainField(entries[i].gene)
    ensures |LibraryLines(GenerateLibrary(entries))| == |entries|
    ensures var line := LibraryLines(GenerateLibrary(entries))[i];
      && |line| >= 1 && line[|line| - 1] == '\n'
      && var fields := Split(line[..|line| - 1], '\t');
      && |fields| == 3
      && fields[0] == "sgRNA_" + NatToString(i + 1)
      && GuideNumber(fields[0]) == Some(i + 1)
      && fields[1] == entries[i].sequence
      && fields[2] == entries[i].gene
  {
    var row := GenerateLibrary(entries)[i];
    assert row == GuideRow(GuideId(i + 1), entries[i].sequence, entries[i].gene);
    GuideIdReadsBack(i + 1);
    var parts := [row.id, row.sequence, row.gene];
    assert '\t' !in parts[0] && '\t' !in parts[1] && '\t' !in parts[2];
    LineReadsBack(parts, '\t');
    var line := LibraryLines(GenerateLibrary(entries))[i];
    assert line == Join(parts, '\t') + "\n";
    assert Split(line[..|line| - 1], '\t') == parts;
  }

  /** The library file has one line per input row whatever the rows hold;
      an empty selection gives an empty file, with no header line. */
  lemma LibraryLineCount(entries: seq<LibraryEntry>)
    ensures |LibraryLines(GenerateLibrary(entries))| == |entries|
    ensures entries == [] <==> LibraryLines(GenerateLibrary(entries)) == []
  {
  }

  /** A guide ID holds no tab and gives its number back. */
  lemma GuideIdReadsBack(n: nat)
    ensures '\t' !in GuideId(n)
    ensures GuideNumber(GuideId(n)) == Some(n)
  {
    var id := GuideId(n);
    assert id[6..] == NatToString(n);
    DecimalValueOfNatToString(n);
  }

  /** No two library rows share a guide ID. */
  lemma LibraryIdsDistinct(entries: seq<LibraryEntry>, i: nat, j: nat)
    requires i < j < |entries|
    ensures GenerateLibrary(entries)[i].id != GenerateLibrary(entries)[j].id
  {
    var a, b := GenerateLibrary(entries)[i].id, GenerateLibrary(entries)[j].id;
    if a == b {
      assert a[6..] == NatToString(i + 1) && b[6..] == NatToString(j + 1);
      NatToStringInjective(i + 1, j + 1);
    }
  }

  // ===========================================================================
  // Selecting the donor/condition group

  /** One row of the sample sheet: the columns `Donor`, `Condition`, `Quartile`
      and `sample` (an integer sample number). */
  datatype SampleRow = SampleRow(donor: string, condition: string, quartile: string, sample: int)

  /** `col.str.replace(' ', '').str.lower()`: how a table value is compared. */
  function TableKey(v: string): string {
    Lower(RemoveSpaces(v))
  }

  /** `q.strip().lower().replace(' ', '')`: how a query is compared. */
  function QueryKey(q: string): string {
    RemoveSpaces(Lower(Strip(q)))
  }

  /** The filter of lines 23-24: both the donor and the condition agree. */
  predicate Matches(row: SampleRow, donor: string, condition: string) {
    TableKey(row.donor) == QueryKey(donor) && TableKey(row.condition) == QueryKey(condition)
  }

  /** `rows[mask]`: the rows the mask keeps, in table order. */
  function Select(rows: seq<SampleRow>, keep: SampleRow -> bool): seq<SampleRow> {
    if rows == [] then []
    else (if keep(rows[0]) then [rows[0]] else []) + Select(rows[1..], keep)
  }

  /** A masked table keeps every row the mask accepts, as often as the table
      holds it, and nothing else. */
  lemma {:induction false} SelectCounts(rows: seq<SampleRow>, keep: SampleRow -> bool)
    ensures forall x :: multiset(Select(rows, keep))[x] == if keep(x) then multiset(rows)[x] else 0
  {
    if rows != [] {
      var head := if keep(rows[0]) then [rows[0]] else [];
      var rest := Select(rows[1..], keep);
      SelectCounts(rows[1..], keep);
      assert multiset(Select(rows, keep)) == multiset(head) + multiset(rest);
      assert multiset(rows) == multiset{rows[0]} + multiset(rows[1..]) by {
        assert rows == [rows[0]] + rows[1..];
      }
      forall x ensures multiset(Select(rows, keep))[x] == if keep(x) then multiset(rows)[x] else 0 {
        assert multiset(head)[x] == if keep(x) && x == rows[0] then 1 else 0;
      }
    }
  }

  /** A masked table is empty exactly when the mask accepts no row. */
  lemma {:induction false} SelectEmpty(rows: seq<SampleRow>, keep: SampleRow -> bool)
    ensures Select(rows, keep) == [] <==> forall k :: 0 <= k < |rows| ==> !keep(rows[k])
  {
    if rows != [] {
      SelectEmpty(rows[1..], keep);
      assert forall k :: 0 < k < |rows| ==> rows[k] == rows[1..][k - 1];
    }
  }

  /** `group_df`: the rows of the sheet that match the query. */
  function MatchingRows(rows: seq<SampleRow>, donor: string, condition: string): seq<SampleRow> {
    Select(rows, x => Matches(x, donor, condition))
  }

  /** The group keeps every matching row, as often as the sheet holds it, and
      nothing else; it is empty exactly when no row matches. */
  lemma MatchingRowsSelects(rows: seq<SampleRow>, donor: string, condition: string)
    ensures var group := MatchingRows(rows, donor, condition);
      forall x :: multiset(group)[x] == if Matches(x, donor, condition) then multiset(rows)[x] else 0
    ensures MatchingRows(rows, donor, condition) == [] <==> forall k :: 0 <= k < |rows| ==> !Matches(rows[k], donor, condition)
  {
    SelectCounts(rows, x => Matches(x, donor, condition));
    SelectEmpty(rows, x => Matches(x, donor, condition));
  }

  /** A query without tabs or other non-space whitespace is compared exactly
      as a table value would be. */
  lemma QueryKeyOfPlainText(q: string)
    requires OnlySpaceWhitespace(q)
    ensures QueryKey(q) == TableKey(q)
  {
    StripThenRemoveSpaces(q);
    LowerRemoveSpacesCommute(Strip(q));
  }

  /** A query is compared as a table value would be, stripped: `strip()`
      only drops whitespace at the ends, and commutes with removing spaces and
      lower-casing. */
  lemma QueryKeyIsStrippedTableKey(q: string)
    ensures QueryKey(q) == Strip(TableKey(q))
  {
    StripCommutes(q);
    StripCommutes(RemoveSpaces(q));
    LowerRemoveSpacesCommute(Strip(q));
  }

  /** Matching ignores case and spaces on the query side: two queries that
      agree once spaces are removed and letters lower-cased select the same
      rows. */
  lemma MatchIgnoresQueryCaseAndSpaces(row: SampleRow, d1: string, c1: string, d2: string, c2: string)
    requires TableKey(d1) == TableKey(d2) && TableKey(c1) == TableKey(c2)
    ensures Matches(row, d1, c1) <==> Matches(row, d2, c2)
  {
    QueryKeyIsStrippedTableKey(d1);
    QueryKeyIsStrippedTableKey(d2);
    QueryKeyIsStrippedTableKey(c1);
    QueryKeyIsStrippedTableKey(c2);
  }

  /** Whitespace at a query's ends (a tab, a newline, a non-breaking space)
      never changes which rows match. */
  lemma MatchIgnoresQueryEdgeWhitespace(row: SampleRow, donor: string, condition: string)
    ensures Matches(row, donor, condition) <==> Matches(row, Strip(donor), Strip(condition))
  {
    StripIdempotent(donor);
    StripIdempotent(condition);
  }

  /** For every query, a row matches exactly when its donor and condition,
      with spaces removed and lower-cased, equal the queries' own such forms
      stripped at both ends. */
  lemma MatchAgreesUpToCaseAndSpaces(row: SampleRow, donor: string, condition: string)
    ensures Matches(row, donor, condition) <==>
      TableKey(row.donor) == Strip(TableKey(donor)) && TableKey(row.condition) == Strip(TableKey(condition))
  {
    QueryKeyIsStrippedTableKey(donor);
    QueryKeyIsStrippedTableKey(condition);
  }

  /** For queries whose only whitespace is spaces, a row is found exactly by
      the queries that spell its own donor and condition with any case and
      spacing. */
  lemma MatchPlainQueries(row: SampleRow, donor: string, condition: string)
    requires OnlySpaceWhitespace(donor) && OnlySpaceWhitespace(condition)
    ensures Matches(row, donor, condition) <==>
      TableKey(row.donor) == TableKey(donor) && TableKey(row.condition) == TableKey(condition)
  {
    QueryKeyOfPlainText(donor);
    QueryKeyOfPlainText(condition);
  }

  // ===========================================================================
  // Splitting into Q1 and Q4

  /** `group_df[group_df['Quartile'] == mark]`. */
  function WithQuartile(rows: seq<SampleRow>, mark: string): (r: seq<SampleRow>)
    ensures forall x :: multiset(r)[x] == if x.quartile == mark then multiset(rows)[x] else 0
  {
    SelectCounts(rows, (x: SampleRow) => x.quartile == mark);
    Select(rows, (x: SampleRow) => x.quartile == mark)
  }

  predicate SortedBySample(s: seq<SampleRow>) {
    forall i, j :: 0 <= i < j < |s| ==> s[i].sample <= s[j].sample
  }

  /** Insert `x` into an ascending sequence before the first row with a
      larger-or-equal sample number. */
  function InsertBySample(x: SampleRow, s: seq<SampleRow>): seq<SampleRow> {
    if s == [] || x.sample <= s[0].sample then [x] + s
    else [s[0]] + InsertBySample(x, s[1..])
  }

  /** Insertion adds `x` and loses nothing. */
  lemma {:induction false} InsertPermutes(x: SampleRow, s: seq<SampleRow>)
    ensures multiset(InsertBySample(x, s)) == multiset(s) + multiset{x}
  {
    if s != [] && x.sample > s[0].sample {
      InsertPermutes(x, s[1..]);
      assert s == [s[0]] + s[1..];
    }
  }

  /** Every row of the result is `x` or a row of `s`. */
  lemma {:induction false} InsertMembers(x: SampleRow, s: seq<SampleRow>)
    ensures forall y :: y in InsertBySample(x, s) ==> y == x || y in s
  {
    if s != [] && x.sample > s[0].sample {
      InsertMembers(x, s[1..]);
    }
  }

  /** Insertion into an ascending sequence keeps it ascending. */
  lemma {:induction false} InsertSorted(x: SampleRow, s: seq<SampleRow>)
    requires SortedBySample(s)
    ensures SortedBySample(InsertBySample(x, s))
  {
    if s != [] && x.sample > s[0].sample {
      var tail := InsertBySample(x, s[1..]);
      InsertSorted(x, s[1..]);
      InsertMembers(x, s[1..]);
      forall k | 0 <= k < |tail| ensures s[0].sample <= tail[k].sample {
        assert tail[k] in tail;
      }
    }
  }

  /** `sort_values(by='sample')`: ascending by sample number. The tie order
      is not part of the contract. */
  function SortBySample(s: seq<SampleRow>): seq<SampleRow> {
    if s == [] then [] else InsertBySample(s[0], SortBySample(s[1..]))
  }

  /** Sorting gives an ascending permutation of its input. */
  lemma {:induction false} SortSortsAndPermutes(s: seq<SampleRow>)
    ensures SortedBySample(SortBySample(s))
    ensures multiset(SortBySample(s)) == multiset(s)
  {
    if s != [] {
      SortSortsAndPermutes(s[1..]);
      InsertSorted(s[0], SortBySample(s[1..]));
      InsertPermutes(s[0], SortBySample(s[1..]));
      assert s == [s[0]] + s[1..];
    }
  }

  /** `q1` or `q4` (lines 32-33): exactly the group's rows with that quartile
      mark, sorted ascending by sample number. */
  function Side(group: seq<SampleRow>, mark: string): (r: seq<SampleRow>)
    ensures SortedBySample(r)
    ensures forall x :: multiset(r)[x] == if x.quartile == mark then multiset(group)[x] else 0
  {
    SortSortsAndPermutes(WithQuartile(group, mark));
    SortBySample(WithQuartile(group, mark))
  }

  function SampleNumbers(side: seq<SampleRow>): (r: seq<int>)
    ensures |r| == |side|
  {
    seq(|side|, i requires 0 <= i < |side| => side[i].sample)
  }

  // ===========================================================================
  // FASTQ lookup

  /** `next((f for f in names if f.startswith(prefix)), None)`, as an index
      into the listing. */
  function FirstWithPrefix(names: seq<string>, prefix: string): (r: Option<nat>)
    ensures r.Some? ==> r.value < |names|
  {
    if names == [] then None
    else if StartsWith(names[0], prefix) then Some(0)
    else
      match FirstWithPrefix(names[1..], prefix)
      case None => None
      case Some(k) => Some(k + 1)
  }

  /** The search finds nothing exactly when no name has the prefix;
      otherwise it finds a name with the prefix, and no earlier name has it. */
  lemma {:induction false} FirstWithPrefixFindsFirst(names: seq<string>, prefix: string)
    ensures var r := FirstWithPrefix(names, prefix);
      && (r.Some? ==> StartsWith(names[r.value], prefix))
      && (r.Some? ==> forall j :: 0 <= j < r.value ==> !StartsWith(names[j], prefix))
      && (r.None? <==> forall j :: 0 <= j < |names| ==> !StartsWith(names[j], prefix))
  {
    if names != [] && !StartsWith(names[0], prefix) {
      FirstWithPrefixFindsFirst(names[1..], prefix);
      assert forall j :: 0 < j < |names| ==> names[j] == names[1..][j - 1];
    }
  }

  /** The file-name prefix a sample's FASTQ carries: `"{sample}_S"`. */
  function FastqPrefix(sample: int): string {
    IntToString(sample) + "_S"
  }

  /** The FASTQ file found for a sample: the first listed name with its
      prefix, if any. */
  function FindFastq(listing: seq<string>, sample: int): Option<string> {
    match FirstWithPrefix(listing, FastqPrefix(sample))
    case None => None
    case Some(k) => Some(listing[k])
  }

  // ===========================================================================
  // The plan

  datatype Step =
    | Usage                                   // wrong argument count
    | NoMatchingSamples                       // "No matching samples ..."
    | MismatchedQuartiles                     // "Mismatched number of Q1 and Q4 ..."
    | MakeDirs(dir: string)                   // os.makedirs(dir, exist_ok=True)
    | MissingFastq(rep: string, q1Sample: string, q4Sample: string)  // "Missing FASTQ ..."
    | Run(argv: seq<string>, cwd: string)     // subprocess.run(argv, cwd=cwd, check=True)

  function RepName(i: nat): string {
    "rep" + NatToString(i + 1)
  }

  /** The directory the FASTQ files are listed from,
      `os.path.join(base_dir, donor.strip(), condition.strip())`. */
  function FastqBaseDir(baseDir: string, donor: string, condition: string): string {
    PosixJoin(PosixJoin(baseDir, Strip(donor)), Strip(condition))
  }

  /** The start of every output name, `mageck_{donor}_{condition}`; it uses
      the query as typed, unlike the directories, which use it stripped. */
  function OutputTag(donor: string, condition: string): string {
    "mageck_" + donor + "_" + condition
  }

  /** The working directory of replicate `i`: `rep{i+1}` under the FASTQ
      directory `base`. */
  function GroupDir(base: string, i: nat): string {
    PosixJoin(base, RepName(i))
  }

  /** The `-n` name of replicate `i`'s count step. */
  function OutputPrefix(tag: string, i: nat): string {
    tag + "_" + RepName(i)
  }

  function CountCommand(library: string, q1Path: string, q4Path: string, prefix: string): seq<string> {
    ["mageck", "count", "-l", library, "--fastq", q1Path, q4Path,
     "--sample-label", "control,treatment", "-n", prefix]
  }

  function TestCommand(prefix: string): seq<string> {
    ["mageck", "test", "-k", prefix + ".count.txt", "-t", "treatment", "-c", "control",
     "-n", prefix + "_test"]
  }

  /** The steps of one pass of the replicate loop (lines 40-80), given the
      FASTQ directory, the library file, the output tag, the two sample numbers and the files
      found for them. */
  function ReplicateBlock(base: string, lib: string, tag: string, i: nat, s1: int, s4: int,
                          q1Fastq: Option<string>, q4Fastq: Option<string>): seq<Step>
  {
    if q1Fastq.None? || q4Fastq.None? then
      SkipBlock(GroupDir(base, i), RepName(i), IntToString(s1), IntToString(s4))
    else
      RunBlock(GroupDir(base, i), lib, PosixJoin(base, q1Fastq.value), PosixJoin(base, q4Fastq.value), OutputPrefix(tag, i))
  }

  /** A replicate whose FASTQ is missing: its directory, then the diagnostic. */
  function SkipBlock(dir: string, rep: string, q1Sample: string, q4Sample: string): seq<Step> {
    [MakeDirs(dir), MissingFastq(rep, q1Sample, q4Sample)]
  }

  /** A replicate that runs: its directory, then count, then test, both in it. */
  function RunBlock(dir: string, lib: string, q1Path: string, q4Path: string, prefix: string): seq<Step> {
    [MakeDirs(dir), Run(CountCommand(lib, q1Path, q4Path, prefix), dir), Run(TestCommand(prefix), dir)]
  }

  /** Replicate `i` pairs the `i`-th Q1 sample with the `i`-th Q4 sample. */
  function ReplicateBlocks(base: string, lib: string, tag: string, listing: seq<string>, q1: seq<int>, q4: seq<int>): seq<seq<Step>>
    requires |q1| == |q4|
  {
    seq(|q1|, i requires 0 <= i < |q1| =>
      ReplicateBlock(base, lib, tag, i, q1[i], q4[i], FindFastq(listing, q1[i]), FindFastq(listing, q4[i])))
  }

  function Flatten(blocks: seq<seq<Step>>): seq<Step> {
    if blocks == [] then [] else Flatten(blocks[..|blocks| - 1]) + blocks[|blocks| - 1]
  }

  /** What `run_mageck(donor, condition)` does, given the sample sheet and the
      listing of the FASTQ directory. */
  function Plan(baseDir: string, donor: string, condition: string, rows: seq<SampleRow>, listing: seq<string>): seq<Step> {
    var group := MatchingRows(rows, donor, condition);
    if group == [] then [NoMatchingSamples]
    else
      var q1 := Side(group, "Q1");
      var q4 := Side(group, "Q4");
      if |q1| != |q4| then [MismatchedQuartiles]
      else Flatten(ReplicateBlocks(FastqBaseDir(baseDir, donor, condition), LibraryFile(baseDir), OutputTag(donor, condition),
                                   listing, SampleNumbers(q1), SampleNumbers(q4)))
  }

  /** `run_mageck`: select, split, then the replicate loop, appending each
      step to the plan in the order the script performs it. */
  method RunMageck(baseDir: string, donor: string, condition: string, rows: seq<SampleRow>, listing: seq<string>)
    returns (steps: seq<Step>)
    ensures steps == Plan(baseDir, donor, condition, rows, listing)
  {
    var group := MatchingRows(rows, donor, condition);
    if group == [] {
      return [NoMatchingSamples];
    }
    var q1 := Side(group, "Q1");
    var q4 := Side(group, "Q4");
    if |q1| != |q4| {
      return [MismatchedQuartiles];
    }
    steps := RunReplicates(baseDir, donor, condition, q1, q4, listing);
  }

  /** The replicate loop: the `i`-th Q1 sample is paired with the `i`-th Q4
      sample as replicate `rep{i+1}`; the directory is created first, a
      replicate whose FASTQ is missing is skipped, and the others run count
      then test. */
  method RunReplicates(baseDir: string, donor: string, condition: string,
                       q1: seq<SampleRow>, q4: seq<SampleRow>, listing: seq<string>)
    returns (steps: seq<Step>)
    requires |q1| == |q4|
    ensures steps == Flatten(ReplicateBlocks(FastqBaseDir(baseDir, donor, condition), LibraryFile(baseDir), OutputTag(donor, condition),
                                             listing, SampleNumbers(q1), SampleNumbers(q4)))
  {
    var fastqBaseDir := FastqBaseDir(baseDir, donor, condition);
    var library := LibraryFile(baseDir);
    var tag := OutputTag(donor, condition);
    ghost var blocks := ReplicateBlocks(fastqBaseDir, library, tag, listing, SampleNumbers(q1), SampleNumbers(q4));
    steps := [];
    for i := 0 to |q1|
      invariant steps == Flatten(blocks[..i])
    {
      FlattenSnoc(blocks, i);
      BlockOfReplicate(fastqBaseDir, library, tag, listing, q1, q4, i);
      var block := RunReplicate(fastqBaseDir, library, tag, listing, i, q1[i].sample, q4[i].sample);
      steps := steps + block;
    }
    assert blocks[..|q1|] == blocks;
  }

  lemma BlockOfReplicate(base: string, lib: string, tag: string, listing: seq<string>, q1: seq<SampleRow>, q4: seq<SampleRow>, i: nat)
    requires |q1| == |q4| && i < |q1|
    ensures ReplicateBlocks(base, lib, tag, listing, SampleNumbers(q1), SampleNumbers(q4))[i]
      == ReplicateBlock(base, lib, tag, i, q1[i].sample, q4[i].sample,
                        FindFastq(listing, q1[i].sample), FindFastq(listing, q4[i].sample))
  {
  }

  /** One pass of the replicate loop: create the replicate's directory, then
      either report the missing FASTQ or count and test. */
  method RunReplicate(fastqBaseDir: string, library: string, tag: string, listing: seq<string>,
                      i: nat, s1: int, s4: int)
    returns (block: seq<Step>)
    ensures block == ReplicateBlock(fastqBaseDir, library, tag, i, s1, s4, FindFastq(listing, s1), FindFastq(listing, s4))
  {
    var repName := RepName(i);
    var groupDir := PosixJoin(fastqBaseDir, repName);
    var q1Fastq := FindFastq(listing, s1);
    var q4Fastq := FindFastq(listing, s4);
    if q1Fastq.None? || q4Fastq.None? {
      block := [MakeDirs(groupDir), MissingFastq(repName, IntToString(s1), IntToString(s4))];
    } else {
      var q1Path := PosixJoin(fastqBaseDir, q1Fastq.value);
      var q4Path := PosixJoin(fastqBaseDir, q4Fastq.value);
      var outputPrefix := tag + "_" + repName;
      block := [MakeDirs(groupDir),
                Run(CountCommand(library, q1Path, q4Path, outputPrefix), groupDir),
                Run(TestCommand(outputPrefix), groupDir)];
    }
  }

  /** The `__main__` block: exactly two arguments after the program name, or
      a usage message and exit status 1 without running anything. Otherwise
      `run_mageck` runs until its first failing command (`fails` says which
      commands exit non-zero); the uncaught `CalledProcessError` then ends
      the process with status 1, and a run without failure ends with 0. */
  method EntryPoint(argv: seq<string>, rows: seq<SampleRow>, listing: seq<string>, fails: Step -> bool)
    returns (status: int, steps: seq<Step>)
    ensures |argv| != 3 ==> status == 1 && steps == [Usage]
    ensures |argv| == 3 ==> steps == RunUntilFailure(Plan(BaseDir, argv[1], argv[2], rows, listing), fails)
    ensures status == 0 || status == 1
    ensures status == 1 <==> |argv| != 3 || exists j :: 0 <= j < |steps| && steps[j].Run? && fails(steps[j])
  {
    if |argv| != 3 {
      return 1, [Usage];
    }
    var donorArg := argv[1];
    var conditionArg := argv[2];
    var plan := RunMageck(BaseDir, donorArg, conditionArg, rows, listing);
    status, steps := RunChecked(plan, fails);
  }

  /** Launches the planned commands with `check=True`: the steps performed
      stop at the first failing command, and the exit status is 1 exactly
      when one failed. */
  method RunChecked(plan: seq<Step>, fails: Step -> bool) returns (status: int, steps: seq<Step>)
    ensures steps == RunUntilFailure(plan, fails)
    ensures status == 0 || status == 1
    ensures status == 1 <==> exists j :: 0 <= j < |steps| && steps[j].Run? && fails(steps[j])
  {
    steps := RunUntilFailure(plan, fails);
    StoppedAtFailure(plan, fails);
    if |steps| > 0 && steps[|steps| - 1].Run? && fails(steps[|steps| - 1]) {
      status := 1;
    } else {
      status := 0;
    }
  }

  /** A run stopped by a failing command ends with that command, and a run
      that ends with one was stopped by it. */
  lemma StoppedAtFailure(plan: seq<Step>, fails: Step -> bool)
    ensures var done := RunUntilFailure(plan, fails);
      (exists j :: 0 <= j < |done| && done[j].Run? && fails(done[j])) <==>
        |done| > 0 && done[|done| - 1].Run? && fails(done[|done| - 1])
  {
  }

  // ===========================================================================
  // Properties of the plan

  predicate IsCount(s: Step) {
    s.Run? && |s.argv| == 11 && s.argv[0] == "mageck" && s.argv[1] == "count"
  }

  predicate IsTest(s: Step) {
    s.Run? && |s.argv| == 10 && s.argv[0] == "mageck" && s.argv[1] == "test"
  }

  /** `test` runs where `count` ran and its `-k` names the table `count`
      writes for its `-n` name. */
  predicate Feeds(count: Step, test: Step)
    requires IsCount(count) && IsTest(test)
  {
    && count.cwd == test.cwd
    && count.argv[9] == "-n" && test.argv[2] == "-k"
    && test.argv[3] == count.argv[10] + ".count.txt"
  }

  /** Every test step comes right after the count step that feeds it. */
  predicate TestsFollowTheirCount(plan: seq<Step>) {
    forall j :: 0 <= j < |plan| && IsTest(plan[j]) ==> 0 < j && IsCount(plan[j - 1]) && Feeds(plan[j - 1], plan[j])
  }

  /** Every command runs in a directory that an earlier step created. */
  ghost predicate RunsInCreatedDirs(plan: seq<Step>) {
    forall j :: 0 <= j < |plan| && plan[j].Run? ==>
      exists k :: 0 <= k < j && plan[k] == MakeDirs(plan[j].cwd)
  }

  /** Every missing-FASTQ diagnostic comes right after the creation of its
      own replicate's directory, the replicate name under `base`. */
  predicate SkipsAfterOwnDir(plan: seq<Step>, base: string) {
    forall j :: 0 <= j < |plan| && plan[j].MissingFastq? ==>
      0 < j && plan[j - 1] == MakeDirs(PosixJoin(base, plan[j].rep))
  }

  predicate WellOrdered(plan: seq<Step>, base: string) {
    TestsFollowTheirCount(plan) && SkipsAfterOwnDir(plan, base)
  }

  predicate NoReplicateWork(plan: seq<Step>) {
    forall j :: 0 <= j < |plan| ==> !plan[j].MakeDirs? && !plan[j].Run?
  }

  lemma WellOrderedAppend(a: seq<Step>, b: seq<Step>, base: string)
    requires WellOrdered(a, base) && WellOrdered(b, base)
    requires b != [] ==> b[0].MakeDirs?
    ensures WellOrdered(a + b, base)
  {
    var ab := a + b;
    forall j | 0 <= j < |ab| && (IsTest(ab[j]) || ab[j].MissingFastq?)
      ensures 0 < j && (IsTest(ab[j]) ==> IsCount(ab[j - 1]) && Feeds(ab[j - 1], ab[j]))
      ensures 0 < j && (ab[j].MissingFastq? ==> ab[j - 1] == MakeDirs(PosixJoin(base, ab[j].rep)))
    {
      if j >= |a| {
        assert ab[j] == b[j - |a|];
        assert ab[j - 1] == b[j - |a| - 1];
      }
    }
  }

  lemma RunsInCreatedDirsAppend(a: seq<Step>, b: seq<Step>)
    requires RunsInCreatedDirs(a) && RunsInCreatedDirs(b)
    ensures RunsInCreatedDirs(a + b)
  {
    var ab := a + b;
    forall j | 0 <= j < |ab| && ab[j].Run?
      ensures exists k :: 0 <= k < j && ab[k] == MakeDirs(ab[j].cwd)
    {
      if j < |a| {
        var k :| 0 <= k < j && a[k] == MakeDirs(a[j].cwd);
        assert ab[k] == a[k];
      } else {
        assert ab[j] == b[j - |a|];
        var k :| 0 <= k < j - |a| && b[k] == MakeDirs(b[j - |a|].cwd);
        assert ab[k + |a|] == b[k];
      }
    }
  }

  lemma SkipBlockShape(dir: string, rep: string, q1Sample: string, q4Sample: string)
    ensures var b := SkipBlock(dir, rep, q1Sample, q4Sample);
      TestsFollowTheirCount(b) && RunsInCreatedDirs(b) && b[0] == MakeDirs(dir)
      && forall k :: 0 <= k < |b| ==> !b[k].Run?
  {
  }

  /** A skipped replicate's diagnostic follows the creation of its own
      directory under `base`. */
  lemma SkipBlockOwnDir(base: string, rep: string, q1Sample: string, q4Sample: string)
    ensures SkipsAfterOwnDir(SkipBlock(PosixJoin(base, rep), rep, q1Sample, q4Sample), base)
  {
    var b := SkipBlock(PosixJoin(base, rep), rep, q1Sample, q4Sample);
    assert b[1] == MissingFastq(rep, q1Sample, q4Sample);
    assert b[0] == MakeDirs(PosixJoin(base, b[1].rep));
  }

  lemma RunBlockShape(dir: string, lib: string, q1Path: string, q4Path: string, prefix: string)
    ensures var b := RunBlock(dir, lib, q1Path, q4Path, prefix);
      && TestsFollowTheirCount(b) && RunsInCreatedDirs(b) && b[0] == MakeDirs(dir)
      && (forall k :: 0 <= k < |b| ==> !b[k].MissingFastq?)
      && |b| == 3 && IsCount(b[1]) && IsTest(b[2]) && Feeds(b[1], b[2]) && b[1].cwd == dir
      && b[1].argv[2] == "-l" && b[1].argv[3] == lib
      && b[1].argv[4] == "--fastq" && b[1].argv[5] == q1Path && b[1].argv[6] == q4Path
      && b[1].argv[7] == "--sample-label" && b[1].argv[8] == "control,treatment"
      && b[1].argv[10] == prefix
      && b[2].argv[4..] == ["-t", "treatment", "-c", "control", "-n", prefix + "_test"]
  {
    var b := RunBlock(dir, lib, q1Path, q4Path, prefix);
    assert b[0] == MakeDirs(b[1].cwd) && b[0] == MakeDirs(b[2].cwd);
  }

  lemma BlockOrdered(base: string, lib: string, tag: string, i: nat, s1: int, s4: int, f1: Option<string>, f4: Option<string>)
    ensures var b := ReplicateBlock(base, lib, tag, i, s1, s4, f1, f4);
      WellOrdered(b, base) && RunsInCreatedDirs(b) && b[0].MakeDirs?
  {
    if f1.None? || f4.None? {
      SkipBlockShape(GroupDir(base, i), RepName(i), IntToString(s1), IntToString(s4));
      SkipBlockOwnDir(base, RepName(i), IntToString(s1), IntToString(s4));
    } else {
      RunBlockShape(GroupDir(base, i), lib, PosixJoin(base, f1.value), PosixJoin(base, f4.value), OutputPrefix(tag, i));
    }
  }

  /** Every block of the replicate loop is ordered and starts by creating its
      directory. */
  lemma BlocksOrdered(base: string, lib: string, tag: string, listing: seq<string>, q1: seq<int>, q4: seq<int>)
    requires |q1| == |q4|
    ensures var blocks := ReplicateBlocks(base, lib, tag, listing, q1, q4);
      forall i :: 0 <= i < |blocks| ==>
        WellOrdered(blocks[i], base) && RunsInCreatedDirs(blocks[i]) && blocks[i] != [] && blocks[i][0].MakeDirs?
  {
    var blocks := ReplicateBlocks(base, lib, tag, listing, q1, q4);
    forall i | 0 <= i < |blocks|
      ensures WellOrdered(blocks[i], base) && RunsInCreatedDirs(blocks[i]) && blocks[i] != [] && blocks[i][0].MakeDirs?
    {
      BlockOrdered(base, lib, tag, i, q1[i], q4[i], FindFastq(listing, q1[i]), FindFastq(listing, q4[i]));
    }
  }

  /** Concatenating ordered blocks that each start by creating a directory
      gives an ordered plan. */
  lemma {:induction false} FlattenOrdered(blocks: seq<seq<Step>>, base: string)
    requires forall i :: 0 <= i < |blocks| ==>
      WellOrdered(blocks[i], base) && RunsInCreatedDirs(blocks[i]) && blocks[i] != [] && blocks[i][0].MakeDirs?
    ensures WellOrdered(Flatten(blocks), base) && RunsInCreatedDirs(Flatten(blocks))
  {
    if blocks != [] {
      var n := |blocks|;
      FlattenOrdered(blocks[..n - 1], base);
      WellOrderedAppend(Flatten(blocks[..n - 1]), blocks[n - 1], base);
      RunsInCreatedDirsAppend(Flatten(blocks[..n - 1]), blocks[n - 1]);
    }
  }

  /** Count strictly before test, test reading what count wrote, every
      command in a directory created earlier, and every skip right after the
      creation of the skipped replicate's own directory under the FASTQ
      directory. */
  lemma PlanOrdering(baseDir: string, donor: string, condition: string, rows: seq<SampleRow>, listing: seq<string>)
    ensures var plan := Plan(baseDir, donor, condition, rows, listing);
      && TestsFollowTheirCount(plan) && RunsInCreatedDirs(plan)
      && SkipsAfterOwnDir(plan, FastqBaseDir(baseDir, donor, condition))
  {
    var group := MatchingRows(rows, donor, condition);
    if group != [] {
      var q1, q4 := SampleNumbers(Side(group, "Q1")), SampleNumbers(Side(group, "Q4"));
      if |q1| == |q4| {
        var base, lib, tag := FastqBaseDir(baseDir, donor, condition), LibraryFile(baseDir), OutputTag(donor, condition);
        BlocksOrdered(base, lib, tag, listing, q1, q4);
        FlattenOrdered(ReplicateBlocks(base, lib, tag, listing, q1, q4), base);
      }
    }
  }

  lemma FlattenSnoc(blocks: seq<seq<Step>>, i: nat)
    requires i < |blocks|
    ensures Flatten(blocks[..i + 1]) == Flatten(blocks[..i]) + blocks[i]
  {
    assert blocks[..i + 1][..i] == blocks[..i];
  }

  lemma {:induction false} FlattenStartsWithMakeDirs(blocks: seq<seq<Step>>)
    requires forall i :: 0 <= i < |blocks| ==> blocks[i] != [] && blocks[i][0].MakeDirs?
    ensures Flatten(blocks) == [] || Flatten(blocks)[0].MakeDirs?
  {
    if blocks != [] {
      FlattenStartsWithMakeDirs(blocks[..|blocks| - 1]);
    }
  }

  /** No matching row: the plan is the single diagnostic, with no directory
      and no command; and the plan is that diagnostic only when no row
      matches. */
  lemma NoMatchPlansNothing(baseDir: string, donor: string, condition: string, rows: seq<SampleRow>, listing: seq<string>)
    ensures (forall k :: 0 <= k < |rows| ==> !Matches(rows[k], donor, condition))
      <==> Plan(baseDir, donor, condition, rows, listing) == [NoMatchingSamples]
    ensures Plan(baseDir, donor, condition, rows, listing) == [NoMatchingSamples] ==>
      NoReplicateWork(Plan(baseDir, donor, condition, rows, listing))
  {
    MatchingRowsSelects(rows, donor, condition);
    var group := MatchingRows(rows, donor, condition);
    if group != [] {
      var q1, q4 := SampleNumbers(Side(group, "Q1")), SampleNumbers(Side(group, "Q4"));
      if |q1| == |q4| {
        BlocksStartWithMakeDirs(FastqBaseDir(baseDir, donor, condition), LibraryFile(baseDir), OutputTag(donor, condition), listing, q1, q4);
      }
    }
  }

  /** A matched group whose Q1 and Q4 sides differ in size is abandoned as a
      whole: only the diagnostic, no directory, no command. With equal sides
      that diagnostic never appears. */
  lemma MismatchPlansNothing(baseDir: string, donor: string, condition: string, rows: seq<SampleRow>, listing: seq<string>)
    requires MatchingRows(rows, donor, condition) != []
    ensures var group := MatchingRows(rows, donor, condition);
      |Side(group, "Q1")| != |Side(group, "Q4")| <==>
        Plan(baseDir, donor, condition, rows, listing) == [MismatchedQuartiles]
    ensures Plan(baseDir, donor, condition, rows, listing) == [MismatchedQuartiles] ==>
      NoReplicateWork(Plan(baseDir, donor, condition, rows, listing))
  {
    var group := MatchingRows(rows, donor, condition);
    var q1, q4 := SampleNumbers(Side(group, "Q1")), SampleNumbers(Side(group, "Q4"));
    if |q1| == |q4| {
      BlocksStartWithMakeDirs(FastqBaseDir(baseDir, donor, condition), LibraryFile(baseDir), OutputTag(donor, condition), listing, q1, q4);
    }
  }

  /** The replicate loop's plan, when not empty, starts by creating a
      directory. */
  lemma BlocksStartWithMakeDirs(base: string, lib: string, tag: string, listing: seq<string>, q1: seq<int>, q4: seq<int>)
    requires |q1| == |q4|
    ensures var plan := Flatten(ReplicateBlocks(base, lib, tag, listing, q1, q4));
      plan == [] || plan[0].MakeDirs?
  {
    BlocksOrdered(base, lib, tag, listing, q1, q4);
    FlattenStartsWithMakeDirs(ReplicateBlocks(base, lib, tag, listing, q1, q4));
  }

  ghost predicate IsFirstWithPrefix(names: seq<string>, k: nat, prefix: string) {
    k < |names| && StartsWith(names[k], prefix) &&
    forall j :: 0 <= j < k ==> !StartsWith(names[j], prefix)
  }

  /** The lookup finds a file exactly when some listed name has the sample's
      prefix, and then it is the first such name in listing order. */
  lemma FindFastqFindsFirst(listing: seq<string>, sample: int)
    ensures FindFastq(listing, sample).Some? <==>
      exists k :: 0 <= k < |listing| && StartsWith(listing[k], FastqPrefix(sample))
    ensures FindFastq(listing, sample).Some? ==>
      exists k: nat :: IsFirstWithPrefix(listing, k, FastqPrefix(sample)) && FindFastq(listing, sample).value == listing[k]
  {
    var f := FirstWithPrefix(listing, FastqPrefix(sample));
    FirstWithPrefixFindsFirst(listing, FastqPrefix(sample));
    if f.Some? {
      assert IsFirstWithPrefix(listing, f.value, FastqPrefix(sample));
    }
  }

  /** One replicate: its directory is created first; if either sample has no
      FASTQ it is skipped with a diagnostic naming both samples and runs
      nothing; otherwise count gets the Q1 file, then the Q4 file, both under
      the FASTQ directory, with labels `control,treatment`, and test follows
      in the same directory. */
  lemma ReplicateContents(base: string, lib: string, tag: string, i: nat, s1: int, s4: int, f1: Option<string>, f4: Option<string>)
    ensures var b := ReplicateBlock(base, lib, tag, i, s1, s4, f1, f4);
      && b[0] == MakeDirs(GroupDir(base, i))
      && ((exists k :: 0 <= k < |b| && b[k].Run?) <==> f1.Some? && f4.Some?)
      && (f1.None? || f4.None? ==> b == [b[0], MissingFastq(RepName(i), IntToString(s1), IntToString(s4))])
      && (f1.Some? && f4.Some? ==>
          && |b| == 3
          && IsCount(b[1]) && IsTest(b[2]) && Feeds(b[1], b[2])
          && b[1].cwd == GroupDir(base, i)
          && b[1].argv[3] == lib
          && b[1].argv[10] == OutputPrefix(tag, i)
          && b[1].argv[7] == "--sample-label" && b[1].argv[8] == "control,treatment"
          && b[1].argv[5] == PosixJoin(base, f1.value)
          && b[1].argv[6] == PosixJoin(base, f4.value))
  {
    if f1.None? || f4.None? {
      SkipBlockShape(GroupDir(base, i), RepName(i), IntToString(s1), IntToString(s4));
    } else {
      RunBlockShape(GroupDir(base, i), lib, PosixJoin(base, f1.value), PosixJoin(base, f4.value), OutputPrefix(tag, i));
      var b := ReplicateBlock(base, lib, tag, i, s1, s4, f1, f4);
      assert b[1].Run?;
    }
  }

  lemma {:induction false} InFlatten(blocks: seq<seq<Step>>, i: nat, x: Step)
    requires i < |blocks| && x in blocks[i]
    ensures x in Flatten(blocks)
  {
    if i < |blocks| - 1 {
      InFlatten(blocks[..|blocks| - 1], i, x);
    }
  }

  lemma {:induction false} InFlattenSomeBlock(blocks: seq<seq<Step>>, x: Step)
    requires x in Flatten(blocks)
    ensures exists i :: 0 <= i < |blocks| && x in blocks[i]
  {
    var n := |blocks|;
    if x !in blocks[n - 1] {
      InFlattenSomeBlock(blocks[..n - 1], x);
      var i :| 0 <= i < n - 1 && x in blocks[..n - 1][i];
      assert x in blocks[i];
    }
  }

  /** Replicate directories are distinct: `rep1`, `rep2`, ... under the same
      FASTQ directory. */
  lemma GroupDirInjective(base: string, i: nat, j: nat)
    requires GroupDir(base, i) == GroupDir(base, j)
    ensures i == j
  {
    RepNameRelative(i);
    RepNameRelative(j);
    PosixJoinRightInjective(base, RepName(i), RepName(j));
    RepNameInjective(i, j);
  }

  lemma RepNameRelative(i: nat)
    ensures |RepName(i)| > 0 && RepName(i)[0] == 'r'
  {
  }

  lemma RepNameInjective(i: nat, j: nat)
    requires RepName(i) == RepName(j)
    ensures i == j
  {
    assert RepName(i)[3..] == NatToString(i + 1);
    assert RepName(j)[3..] == NatToString(j + 1);
    NatToStringInjective(i + 1, j + 1);
  }

  /** Skipping is per replicate: in the replicate loop's plan, replicate `i`
      creates its directory, and runs commands there exactly when both of its
      samples have a FASTQ in the listing, whatever happened to the other
      replicates. */
  lemma SkipIsPerReplicate(base: string, lib: string, tag: string, listing: seq<string>, q1: seq<int>, q4: seq<int>, i: nat)
    requires |q1| == |q4| && i < |q1|
    ensures var plan := Flatten(ReplicateBlocks(base, lib, tag, listing, q1, q4));
      MakeDirs(GroupDir(base, i)) in plan &&
      ((exists s :: s in plan && s.Run? && s.cwd == GroupDir(base, i)) <==>
        FindFastq(listing, q1[i]).Some? && FindFastq(listing, q4[i]).Some?)
  {
    var blocks := ReplicateBlocks(base, lib, tag, listing, q1, q4);
    var f1, f4 := FindFastq(listing, q1[i]), FindFastq(listing, q4[i]);
    ReplicateContents(base, lib, tag, i, q1[i], q4[i], f1, f4);
    InFlatten(blocks, i, blocks[i][0]);
    if f1.Some? && f4.Some? {
      InFlatten(blocks, i, blocks[i][1]);
    } else {
      SkippedReplicateRunsNothing(base, lib, tag, listing, q1, q4, i);
    }
  }

  /** A replicate without both FASTQ files has no command anywhere in the
      plan running in its directory. */
  lemma SkippedReplicateRunsNothing(base: string, lib: string, tag: string, listing: seq<string>, q1: seq<int>, q4: seq<int>, i: nat)
    requires |q1| == |q4| && i < |q1|
    requires FindFastq(listing, q1[i]).None? || FindFastq(listing, q4[i]).None?
    ensures forall s :: s in Flatten(ReplicateBlocks(base, lib, tag, listing, q1, q4)) && s.Run? ==> s.cwd != GroupDir(base, i)
  {
    var blocks := ReplicateBlocks(base, lib, tag, listing, q1, q4);
    forall s | s in Flatten(blocks) && s.Run? ensures s.cwd != GroupDir(base, i) {
      InFlattenSomeBlock(blocks, s);
      var j :| 0 <= j < |blocks| && s in blocks[j];
      RunsOfBlock(base, lib, tag, j, q1[j], q4[j], FindFastq(listing, q1[j]), FindFastq(listing, q4[j]), s);
      if s.cwd == GroupDir(base, i) {
        GroupDirInjective(base, i, j);
      }
    }
  }

  /** A command of replicate `i` runs in that replicate's directory, and only
      when both files were found. */
  lemma RunsOfBlock(base: string, lib: string, tag: string, i: nat, s1: int, s4: int, f1: Option<string>, f4: Option<string>, s: Step)
    requires s in ReplicateBlock(base, lib, tag, i, s1, s4, f1, f4) && s.Run?
    ensures s.cwd == GroupDir(base, i) && f1.Some? && f4.Some?
  {
    if f1.None? || f4.None? {
      SkipBlockShape(GroupDir(base, i), RepName(i), IntToString(s1), IntToString(s4));
    } else {
      RunBlockShape(GroupDir(base, i), lib, PosixJoin(base, f1.value), PosixJoin(base, f4.value), OutputPrefix(tag, i));
    }
  }

  /** The same for the whole run: once the group is matched and its sides
      agree, each replicate's fate depends only on its own two samples. */
  lemma PlanSkipIsPerReplicate(baseDir: string, donor: string, condition: string, rows: seq<SampleRow>, listing: seq<string>, i: nat)
    requires var group := MatchingRows(rows, donor, condition);
      group != [] && |Side(group, "Q1")| == |Side(group, "Q4")| && i < |Side(group, "Q1")|
    ensures var group := MatchingRows(rows, donor, condition);
      var s1, s4 := Side(group, "Q1")[i].sample, Side(group, "Q4")[i].sample;
      var plan := Plan(baseDir, donor, condition, rows, listing);
      var dir := GroupDir(FastqBaseDir(baseDir, donor, condition), i);
      MakeDirs(dir) in plan &&
      ((exists s :: s in plan && s.Run? && s.cwd == dir) <==>
        FindFastq(listing, s1).Some? && FindFastq(listing, s4).Some?)
  {
    var group := MatchingRows(rows, donor, condition);
    var q1, q4 := SampleNumbers(Side(group, "Q1")), SampleNumbers(Side(group, "Q4"));
    SkipIsPerReplicate(FastqBaseDir(baseDir, donor, condition), LibraryFile(baseDir), OutputTag(donor, condition), listing, q1, q4, i);
  }

  /** The directories the loop creates (`rep1`, `rep2`, ...) never match a
      FASTQ prefix, since a prefix starts with a digit or a minus sign; so
      creating them inside the FASTQ directory does not change which file a
      later lookup finds. */
  lemma RepDirNeverMatches(i: nat, sample: int)
    ensures !StartsWith(RepName(i), FastqPrefix(sample))
  {
    assert RepName(i)[0] == 'r';
    assert FastqPrefix(sample)[0] == IntToString(sample)[0];
  }

  // ===========================================================================
  // A failing command ends the run

  /** The steps actually performed when the command steps for which `fails`
      holds exit non-zero: `check=True` raises at the first failure, so the
      run stops right after that command. */
  function RunUntilFailure(steps: seq<Step>, fails: Step -> bool): (done: seq<Step>)
    ensures |done| <= |steps| && done == steps[..|done|]
    ensures forall j :: 0 <= j < |done| - 1 ==> !(done[j].Run? && fails(done[j]))
    ensures |done| < |steps| ==> |done| > 0 && done[|done| - 1].Run? && fails(done[|done| - 1])
  {
    if steps == [] then []
    else if steps[0].Run? && fails(steps[0]) then [steps[0]]
    else [steps[0]] + RunUntilFailure(steps[1..], fails)
  }

  /** Whatever fails, a test command is only ever launched right after the
      count command that feeds it, and only once that count succeeded. */
  lemma TestRunsOnlyAfterCountSucceeded(baseDir: string, donor: string, condition: string, rows: seq<SampleRow>, listing: seq<string>, fails: Step -> bool)
    ensures var done := RunUntilFailure(Plan(baseDir, donor, condition, rows, listing), fails);
      forall j :: 0 <= j < |done| && IsTest(done[j]) ==>
        0 < j && IsCount(done[j - 1]) && Feeds(done[j - 1], done[j]) && !fails(done[j - 1])
  {
    var plan := Plan(baseDir, donor, condition, rows, listing);
    PlanOrdering(baseDir, donor, condition, rows, listing);
    var done := RunUntilFailure(plan, fails);
    forall j | 0 <= j < |done| && IsTest(done[j])
      ensures 0 < j && IsCount(done[j - 1]) && Feeds(done[j - 1], done[j]) && !fails(done[j - 1])
    {
      assert done[j] == plan[j] && done[j - 1] == plan[j - 1];
    }
  }
}
