/** The two standalone scripts, msa_variants/Extract_SNPs_from_MSA.py and
    msa_variants/Extract_InDels_from_MSA.py. They run the same column scans
    as the class and print a slightly different table: a fixed identifier
    field of 10 characters, a tab after it, `POS` as the header label, and a
    count line without quotes. */
module Scripts {
  import opened Text
  import opened Alignments
  import opened Scan
  import opened Report

  const FieldWidth: nat := 10
  const Tab: char := '\t'

  /** `'POS'.ljust(10)` and `record.id[:10].ljust(10)`, each followed by
      `end='\t'`. */
  function ScriptLayout(): Layout {
    Layout("POS", FieldWidth, FieldWidth, [Tab])
  }

  /** `print('# Number of SNPs:', y)` / `print('# Number of InDels:', y)`:
      `print` puts one blank between its arguments. */
  function CountLine(k: Kind, n: nat): string {
    CountPrefix(k) + Decimal(n)
  }

  function CountPrefix(k: Kind): string {
    match k
    case Snp => "# Number of SNPs: "
    case Indel => "# Number of InDels: "
  }

  /** The lines the script prints into its output file. */
  function ScriptLines(a: Alignment, k: Kind): seq<string>
    requires WellFormed(a)
  {
    var ps := Positions(k, a);
    [CountLine(k, |ps|)] + Table(ScriptLayout(), a, ps)
  }

  /** Every printed row is exactly 10 identifier characters, a tab, then two
      characters per listed column: that record's residue and a blank. */
  lemma RowShape(rec: Record, ps: seq<nat>)
    requires AllBelow(ps, |rec.residues|)
    ensures var row := Row(ScriptLayout(), rec, ps); var id := Prefix(rec.id, FieldWidth);
      && |row| == FieldWidth + 1 + 2 * |ps|
      && row[..|id|] == id
      && (forall j :: |id| <= j < FieldWidth ==> row[j] == Space)
      && row[FieldWidth] == Tab
      && (forall c :: 0 <= c < |ps| ==>
            row[FieldWidth + 1 + 2 * c] == rec.residues[ps[c]] && row[FieldWidth + 2 + 2 * c] == Space)
  {
    Report.RowShape(ScriptLayout(), rec, ps);
  }

  /** The header is `POS` and seven blanks, a tab, then the position field. */
  lemma HeaderShape(ps: seq<nat>)
    ensures Header(ScriptLayout(), ps) == "POS       " + [Tab] + PositionField(ps)
  {
    assert LeftJustify("POS", FieldWidth) == "POS       ";
  }

  /** Cutting the printed file at its line breaks gives back the count line,
      the header and one row per record, in alignment order. */
  lemma LinesReadBack(a: Alignment, k: Kind)
    requires WellFormed(a) && NoLineBreaks(a)
    ensures var ps := Positions(k, a); var lines := Lines(Unlines(ScriptLines(a, k)));
      && |lines| == |a| + 2
      && lines[0] == CountLine(k, |ps|)
      && lines[1] == Header(ScriptLayout(), ps)
      && forall i :: 0 <= i < |a| ==> lines[i + 2] == Row(ScriptLayout(), a[i], ps)
  {
    var ps := Positions(k, a);
    DecimalBetweenAvoids(CountPrefix(k), |ps|, "", Newline);
    ReadBackReport(CountLine(k, |ps|), ScriptLayout(), a, ps);
  }

  /** The count printed is the number of listed columns, and it can be read
      back after the fixed prefix. */
  lemma CountLineReadsBack(a: Alignment, k: Kind)
    requires WellFormed(a)
    ensures var line := ScriptLines(a, k)[0]; var p := CountPrefix(k);
      && line[..|p|] == p
      && AllDigits(line[|p|..])
      && ParseDecimal(line[|p|..]) == |Positions(k, a)|
  {
    var n := |Positions(k, a)|;
    var line := ScriptLines(a, k)[0];
    var p := CountPrefix(k);
    assert line[|p|..] == Decimal(n);
    DecimalRoundTrip(n);
  }

  /** Extract_SNPs_from_MSA.py: the loop fills `snp` and `y`, then the
      report is printed to `snps.txt`. */
  method SnpsScript(a: Alignment) returns (text: string)
    requires WellFormed(a)
    ensures text == Unlines(ScriptLines(a, Snp))
  {
    var snp, y := ExtractSnps(a);
    text := Unlines([CountLine(Snp, y)] + Table(ScriptLayout(), a, snp));
  }

  /** Extract_InDels_from_MSA.py: the loop fills `indel` and `y`, then the
      report is printed to `indels.txt`. */
  method IndelsScript(a: Alignment) returns (text: string)
    requires WellFormed(a)
    ensures text == Unlines(ScriptLines(a, Indel))
  {
    var indel, y := ExtractIndels(a);
    text := Unlines([CountLine(Indel, y)] + Table(ScriptLayout(), a, indel));
  }
}
