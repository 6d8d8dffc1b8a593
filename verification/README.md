# MSA-variants in Dafny

A model of the variant scan of MSA-variants. The scan walks a multiple sequence alignment column by column. It collects every column holding a gap, the *indels*. It also collects every column where more than one distinct non-gap residue appears, the *SNPs*. For each kind it then writes a fixed-width text report: a count line, a `POS` header listing the selected columns 1-based, and one row per record with its cut identifier and the residue it carries at each selected column.

Two writers are modelled:

- the `Extractor` class (`msa_variants/extractor.py`), with its identifier padding rule and its `indels_only` / `snps_only` mode selection;
- the two standalone scripts (`Extract_SNPs_from_MSA.py`, `Extract_InDels_from_MSA.py`), which run the same scans and print a slightly different layout.

Modules, one per file:

- `Text` (`text.dfy`): Python's `ljust`, `s[:n]`, `str(n)` on naturals, `" ".join`, and writing lines each followed by `"\n"`. `str(n)`, `" ".join` and line writing each come with a reading-back partner (`ParseDecimal`, `Split`, `Lines`); `ljust` and `s[:n]` are described by their contracts.
- `Alignments` (`alignments.dfy`): records, the alignment and its common length. `WellFormed` is what a successful `AlignIO.read` guarantees.
- `Columns` (`columns.dfy`): the two column classifiers, plus a set-free reference reading of the SNP test.
- `Scan` (`scan.dfy`): the position lists as functions, the loops as methods, and their agreement.
- `Report` (`report.dfy`): the table both writers share, parameterised by a `Layout` (header label, field width, cut length, separator).
- `Extraction` (`extractor.dfy`): the `Extractor` class.
- `Scripts` (`scripts.dfy`): the two standalone scripts.
- `Scenarios` (`scenarios.dfy`): a worked three-record alignment traced to the exact bytes each script writes.

Two facts about the output that are easy to misread:

- The class writes `## Number of SNPs: '<n>'` and `## Number of indels: '<n>'`. The scripts write `# Number of SNPs: <n>` and `# Number of InDels: <n>`.
- Every residue cell is followed by a blank, so a row ends with a blank whenever at least one column is listed. With no column listed, a row of the class is the identifier field alone, and a row of a script is that field followed by a tab.

## Model

| member | source | states |
|---|---|---|
| Columns.IsSnp | msa_variants/extractor.py:88-92 | the SNP test: more than one distinct non-gap symbol in the column |
| Columns.IsIndel | msa_variants/extractor.py:159 | the indel test: some record has `-` in the column |
| Columns.DiscardGap | msa_variants/extractor.py:88-90 | the non-gap symbols of a column are exactly its symbol set with `-` discarded |
| Columns.SnpIffDisagree | msa_variants/extractor.py:88-92 | the set test `len(d) > 1` holds iff two records carry different residues at the column, neither of them a gap (both directions) |
| Columns.IndelIffGapPresent | msa_variants/extractor.py:159 | a column is an indel iff the gap symbol is among its symbols |
| Columns.AtMostOneResidue | msa_variants/extractor.py:88-92 | a column in which every record holds either `-` or one fixed residue `c` is not a SNP |
| Columns.GapOnlyColumn | msa_variants/extractor.py:88-92 | a column of gaps only is an indel and never a SNP |
| Columns.SingleRecordNoSnp | msa_variants/extractor.py:88-92 | with one record no column is a SNP |
| Scan.PositionsBelow | msa_variants/extractor.py:87-93 | after the loop has visited columns below n, the list holds exactly the selected columns below n, and nothing at or above n |
| Scan.Positions | msa_variants/extractor.py:87-93 | the finished list is strictly ascending, every entry is a column index, and a column is listed iff its classifier accepts it |
| Scan.PositionsBelowAscending | msa_variants/extractor.py:87-93 | appending in `range` order keeps the list strictly ascending |
| Scan.PositionsStep | msa_variants/extractor.py:92-93 | one iteration appends column n exactly when it is selected, and otherwise leaves the list alone |
| Scan.PositionsEnumerateSelected | msa_variants/extractor.py:87-93 | an ascending list has the selected set as its members iff it is the loop's list: the list is the unique ascending enumeration of the set comprehension |
| Scan.AscendingUnique | msa_variants/extractor.py:87-93 | two strictly ascending lists with the same members are equal |
| Scan.AscendingHasNoDuplicates | msa_variants/extractor.py:93 | no column appears twice in a list |
| Scan.EmptyAlignmentHasNoVariants | msa_variants/extractor.py:87 | with no columns both lists are empty |
| Scan.SingleRecordHasNoSnps | msa_variants/extractor.py:82-94 | a one-record alignment yields an empty SNP list |
| Scan.GapFreeHasNoIndels | msa_variants/extractor.py:153-162 | an alignment without `-` yields an empty indel list, and so a zero count |
| Scan.CollectColumn | msa_variants/extractor.py:88 | the loop over the records builds exactly the column's symbol set |
| Scan.SnpColumn | msa_variants/extractor.py:88-92 | collecting, discarding the gap and comparing the size with one decides the SNP classifier |
| Scan.AnyGap | msa_variants/extractor.py:159 | the short-circuit search finds a gap iff the column is an indel |
| Scan.ExtractSnps | msa_variants/extractor.py:82-94 | the loop's `snp_list` is the SNP position list and `snp_ctr` is its length |
| Scan.ExtractIndels | msa_variants/extractor.py:153-162 | the loop's `indel_list` is the indel position list and `indel_ctr` is its length |
| Text.LeftJustify | msa_variants/Extract_SNPs_from_MSA.py:31 | `ljust` keeps the whole string, then adds blanks up to the width; it never cuts |
| Text.Prefix | msa_variants/Extract_SNPs_from_MSA.py:34 | `s[:n]` is a prefix of `s` of length `min(n, len(s))` |
| Text.Decimal | msa_variants/extractor.py:128 | `str(n)` is a non-empty run of digits without a leading zero unless `n` is 0 |
| Text.DecimalRoundTrip | msa_variants/extractor.py:128 | reading a rendered number back gives the number |
| Text.DecimalInjective | msa_variants/extractor.py:128 | different numbers render differently |
| Text.SplitJoin | msa_variants/extractor.py:128 | splitting a `" ".join` of blank-free parts on blanks gives the parts back |
| Text.DecimalBetweenAvoids | msa_variants/extractor.py:125 | a count line built as prefix, decimal number and suffix holds no non-digit character that prefix and suffix lack, in particular no line break (for both writers' count lines) |
| Text.LinesUnlines | msa_variants/extractor.py:125-137 | text written as lines each ending in `"\n"` cuts back into the same lines when none holds a line break |
| Report.Header | msa_variants/extractor.py:127-129 | the header line: the label left-justified to the field width, the separator, then the 1-based positions joined by blanks |
| Report.Row | msa_variants/extractor.py:131-137 | one body row: the identifier cut and left-justified to the field width, the separator, then residue and blank per listed column |
| Report.Cells | msa_variants/extractor.py:135-136 | the residue cells are two characters per listed column: that record's residue at the column, then a blank |
| Report.Rows | msa_variants/extractor.py:131-137 | one row per record, in alignment order |
| Report.HeaderLayout | msa_variants/extractor.py:127-129 | the header is the label, blanks up to the field width (never cut), the separator, then the position field |
| Report.PositionFieldReadsBack | msa_variants/extractor.py:128 | splitting the position field on blanks gives one label per position, each reads back as position + 1, and the field ends in a digit (no trailing blank); empty with no positions |
| Report.RowShape | msa_variants/extractor.py:131-137 | a row is the cut identifier padded to exactly the width, the separator, then residue and blank for each listed column |
| Report.TableHasNoLineBreaks | msa_variants/extractor.py:127-137 | no header or row holds a line break when no identifier or residue does |
| Report.ReadBackReport | msa_variants/extractor.py:125-137 | cutting a written report at line breaks gives back the first line and the table |
| Extraction.AdjustPadding | msa_variants/extractor.py:50-53 | the corrected padding is at least the substring length; it is kept when larger, and otherwise reflected about the substring length (`2*sub - padding`) |
| Extraction.AdjustPaddingIdempotent | msa_variants/extractor.py:50-53 | correcting twice gives the same padding as correcting once |
| Extraction.AdjustPaddingMayBeTight | msa_variants/extractor.py:50-53 | equal padding and substring length are left equal, so the field can be exactly as wide as a full-length identifier |
| Extraction.NewExtractor | msa_variants/extractor.py:39-53 | the constructor takes the defaults 30 and 20 for missing keys, stores the flags, sets the padding to the corrected value of the configured (or default) padding, so it is kept when it exceeds the substring length, and always ends with padding at least the substring length |
| Extraction.CountLine | msa_variants/extractor.py:125 | the class's count line, `## Number of SNPs: '<n>'` or `## Number of indels: '<n>'` (line 193) |
| Extraction.ReportText | msa_variants/extractor.py:125-137 | the text of one report file: the count line, the `POS:` header and one row per record, each followed by a line break |
| Extraction.CountLineReadsBack | msa_variants/extractor.py:125 | the count line is the fixed prefix, the count in decimal, and a closing quote; the count reads back |
| Extraction.RowShape | msa_variants/extractor.py:131-137 | a row is exactly `identifier_padding + 2*len(list)` long: the cut identifier, blanks up to the padding, then residue and blank per listed column |
| Extraction.ReportLinesReadBack | msa_variants/extractor.py:193-205 | the written file cuts back into the count line, the `POS:` header and one row per record, in order |
| Extraction.ExtractSnps | msa_variants/extractor.py:82-96 | the SNP file text is the report of the SNP position list with its length as the count |
| Extraction.ExtractIndels | msa_variants/extractor.py:153-164 | the indel file text is the report of the indel position list with its length as the count |
| Extraction.Extract | msa_variants/extractor.py:66-70 | `snps.txt` is written iff `indels_only` is unset and `indels.txt` iff `snps_only` is unset, each with its report, and nothing else is written |
| Scripts.CountLine | msa_variants/Extract_SNPs_from_MSA.py:30 | the script's count line, `# Number of SNPs: <n>` or `# Number of InDels: <n>` (Extract_InDels_from_MSA.py line 28) |
| Scripts.ScriptLines | msa_variants/Extract_SNPs_from_MSA.py:29-37 | the lines a script prints: the count line, the `POS` header with a tab, and one row per record |
| Scripts.RowShape | msa_variants/Extract_SNPs_from_MSA.py:33-37 | a script row is the identifier cut to 10 and padded to exactly 10, a tab, then residue and blank per listed column |
| Scripts.HeaderShape | msa_variants/Extract_SNPs_from_MSA.py:31-32 | the script header is `POS` and seven blanks, a tab, then the position field |
| Scripts.CountLineReadsBack | msa_variants/Extract_SNPs_from_MSA.py:30 | after the fixed prefix the count line holds the decimal number of listed columns, which reads back |
| Scripts.LinesReadBack | msa_variants/Extract_InDels_from_MSA.py:27-35 | the printed file cuts back into the count line, the header and one row per record, in order |
| Scripts.SnpsScript | msa_variants/Extract_SNPs_from_MSA.py:20-37 | the loop and the prints produce the script's file text for the SNP list |
| Scripts.IndelsScript | msa_variants/Extract_InDels_from_MSA.py:20-35 | the loop and the prints produce the script's file text for the indel list |
| Scenarios.ExampleSnps | msa_variants/extractor.py:87-94 | for `AC-T`, `AG-T`, `AC-T` the SNP list is `[1]` |
| Scenarios.ExampleIndels | msa_variants/extractor.py:158-162 | for the same alignment the indel list is `[2]` |
| Scenarios.ExamplePositions | msa_variants/extractor.py:87-94 | both lists of the example together |
| Scenarios.ExampleSnpsLines | msa_variants/Extract_SNPs_from_MSA.py:29-37 | the lines the SNP script prints for the example, given its list |
| Scenarios.ExampleIndelsLines | msa_variants/Extract_InDels_from_MSA.py:27-35 | the lines the indel script prints for the example, given its list |
| Scenarios.ExampleScriptFiles | msa_variants/Extract_SNPs_from_MSA.py:20-37 | the complete `snps.txt` and `indels.txt` the scripts write for the example |
| Scenarios.SnpAndIndelTogether | msa_variants/extractor.py:88-92 | a column can be a SNP and an indel at once |

## Left out

- Reading the FASTA file and checking that all sequences have one length are done by Biopython's `AlignIO.read`, which is not part of this model. `WellFormed` is taken as a precondition: at least one record, and all residue strings of one length.
- Opening and writing files, `os.path.join`, `logging` and the `verbose` print are left out. Each report is returned as the text it would write, and `Extraction.Extract` returns a map from file name to text.
- The optional provenance block (`include_provenance`) is left out. It depends on the clock, the `USER` environment variable and the module path.
- `msa_variants/msa_variants.py` is left out. It holds the command-line options, YAML loading, logging setup and the input-file checks. This includes its refusal of `--indels-only` together with `--snps-only`; `Extraction.Extract` with both flags set writes nothing.
- `setup.py` (packaging) and `tests/test_msa_variants.py` (a test of a missing `cli` module) are left out.
- Extraction.NewExtractor: requires a non-negative `identifier_substring_length`. The source would pass a negative one to Python slicing, which counts from the end of the identifier.
- Extraction.NewExtractor: configuration values are modelled as integers. The source's `int(...)` conversion of strings, and its failure on non-numeric text, are not modelled.
- Extraction.ExtractSnps, Extraction.ExtractIndels, Extraction.Extract: require `Valid`, i.e. padding at least the substring length and so not negative. With a negative padding the source's f-string width raises `ValueError`; that error path is not modelled, and `Extraction.NewExtractor` never builds such an extractor.
- Report.Rows: `record.seq[i]` of a Biopython `Seq` is a one-character string; it is modelled as the character.
- `_write_snp_outfile` and `_write_indels_outfile` are one function in the model (`Extraction.ReportText` with a `Kind`). They differ only in the count-line prefix.
