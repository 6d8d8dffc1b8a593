/** Concrete alignments worked through the model: a three-record example
    with one SNP column and one all-gap column, traced to the exact text both
    scripts write, and a column that is a SNP and an indel at once. */
module Scenarios {
  import opened Text
  import opened Alignments
  import opened Columns
  import opened Scan
  import opened Report
  import opened Scripts

  /** `seqA = AC-T`, `seqB = AG-T`, `seqC = AC-T`. */
  function Example(): Alignment {
    [Record("seqA", "AC-T"), Record("seqB", "AG-T"), Record("seqC", "AC-T")]
  }

  /** Column 1 (C/G/C) is the only SNP and column 2 (all gaps) the only
      indel; printed 1-based they are 2 and 3. */
  lemma ExamplePositions()
    ensures Positions(Snp, Example()) == [1]
    ensures Positions(Indel, Example()) == [2]
  {
    ExampleSnps();
    ExampleIndels();
  }

  lemma ExampleSnps()
    ensures Positions(Snp, Example()) == [1]
  {
    var a := Example();
    assert WellFormed(a);
    AtMostOneResidue(a, 0, 'A');
    assert NonGapPair(a, 1, 0, 1);
    SnpIffDisagree(a, 1);
    GapOnlyColumn(a, 2);
    AtMostOneResidue(a, 3, 'T');
    PositionsStep(Snp, a, 0);
    PositionsStep(Snp, a, 1);
    PositionsStep(Snp, a, 2);
    PositionsStep(Snp, a, 3);
  }

  lemma ExampleIndels()
    ensures Positions(Indel, Example()) == [2]
  {
    var a := Example();
    assert WellFormed(a);
    assert !IsIndel(a, 0) && !IsIndel(a, 1) && IsIndel(a, 2) && !IsIndel(a, 3);
    PositionsStep(Indel, a, 0);
    PositionsStep(Indel, a, 1);
    PositionsStep(Indel, a, 2);
    PositionsStep(Indel, a, 3);
  }

  /** The lines of the SNP script's file for the example once the list is known. */
  lemma ExampleSnpsLines()
    ensures [Scripts.CountLine(Snp, 1)] + Table(ScriptLayout(), Example(), [1])
         == ["# Number of SNPs: 1", "POS       \t2", "seqA      \tC ", "seqB      \tG ", "seqC      \tC "]
  {
    var a := Example();
    var ps: seq<nat> := [1];
    assert Decimal(1) == "1" && Decimal(2) == "2";
    assert PositionLabels(ps) == ["2"];
    HeaderShape(ps);
    assert LeftJustify("seqA", 10) == "seqA      ";
    assert LeftJustify("seqB", 10) == "seqB      ";
    assert LeftJustify("seqC", 10) == "seqC      ";
    assert Header(ScriptLayout(), ps) == "POS       \t2";
    assert Row(ScriptLayout(), a[0], ps) == "seqA      \tC ";
    assert Row(ScriptLayout(), a[1], ps) == "seqB      \tG ";
    assert Row(ScriptLayout(), a[2], ps) == "seqC      \tC ";
    assert Scripts.CountLine(Snp, 1) == "# Number of SNPs: 1";
  }

  /** The lines of the indel script's file for the example once the list is known. */
  lemma ExampleIndelsLines()
    ensures [Scripts.CountLine(Indel, 1)] + Table(ScriptLayout(), Example(), [2])
         == ["# Number of InDels: 1", "POS       \t3", "seqA      \t- ", "seqB      \t- ", "seqC      \t- "]
  {
    var a := Example();
    var ps: seq<nat> := [2];
    assert Decimal(1) == "1" && Decimal(3) == "3";
    assert PositionLabels(ps) == ["3"];
    HeaderShape(ps);
    assert LeftJustify("seqA", 10) == "seqA      ";
    assert LeftJustify("seqB", 10) == "seqB      ";
    assert LeftJustify("seqC", 10) == "seqC      ";
    assert Header(ScriptLayout(), ps) == "POS       \t3";
    assert Row(ScriptLayout(), a[0], ps) == "seqA      \t- ";
    assert Row(ScriptLayout(), a[1], ps) == "seqB      \t- ";
    assert Row(ScriptLayout(), a[2], ps) == "seqC      \t- ";
    assert Scripts.CountLine(Indel, 1) == "# Number of InDels: 1";
  }

  /** Writing five lines, each followed by a line break. */
  lemma UnlinesOfFive(l0: string, l1: string, l2: string, l3: string, l4: string)
    ensures Unlines([l0, l1, l2, l3, l4])
         == l0 + "\n" + l1 + "\n" + l2 + "\n" + l3 + "\n" + l4 + "\n"
  {
    var ls := [l0, l1, l2, l3, l4];
    assert ls[1..] == [l1, l2, l3, l4];
    assert ls[1..][1..] == [l2, l3, l4];
    assert ls[1..][1..][1..] == [l3, l4];
    assert ls[1..][1..][1..][1..] == [l4];
    assert ls[1..][1..][1..][1..][1..] == [];
    var nl := [Newline];
    assert Unlines([l4]) == l4 + nl;
    assert Unlines([l3, l4]) == l3 + nl + (l4 + nl);
    assert Unlines([l2, l3, l4]) == l2 + nl + (l3 + nl + (l4 + nl));
    assert Unlines([l1, l2, l3, l4]) == l1 + nl + (l2 + nl + (l3 + nl + (l4 + nl)));
    assert Unlines(ls) == l0 + nl + (l1 + nl + (l2 + nl + (l3 + nl + (l4 + nl))));
  }

  /** The full `snps.txt` and `indels.txt` the two scripts write for the
      example. */
  lemma ExampleScriptFiles()
    ensures Unlines(ScriptLines(Example(), Snp))
         == "# Number of SNPs: 1" + "\n" + "POS       \t2" + "\n"
          + "seqA      \tC " + "\n" + "seqB      \tG " + "\n" + "seqC      \tC " + "\n"
    ensures Unlines(ScriptLines(Example(), Indel))
         == "# Number of InDels: 1" + "\n" + "POS       \t3" + "\n"
          + "seqA      \t- " + "\n" + "seqB      \t- " + "\n" + "seqC      \t- " + "\n"
  {
    ExamplePositions();
    ExampleSnpsLines();
    ExampleIndelsLines();
    UnlinesOfFive("# Number of SNPs: 1", "POS       \t2", "seqA      \tC ", "seqB      \tG ", "seqC      \tC ");
    UnlinesOfFive("# Number of InDels: 1", "POS       \t3", "seqA      \t- ", "seqB      \t- ", "seqC      \t- ");
  }

  /** A column can be a SNP and an indel at once. */
  lemma SnpAndIndelTogether()
    ensures var a := [Record("x", "-"), Record("y", "A"), Record("z", "C")];
      WellFormed(a) && IsSnp(a, 0) && IsIndel(a, 0)
  {
    var a := [Record("x", "-"), Record("y", "A"), Record("z", "C")];
    assert NonGapPair(a, 0, 1, 2);
    SnpIffDisagree(a, 0);
  }
}
