/** The `Extractor` class of msa_variants/extractor.py: the identifier
    padding rule of its constructor, the mode selection of `extract`, and the
    text `_write_snp_outfile` / `_write_indels_outfile` put into `snps.txt`
    and `indels.txt` (without the optional provenance block). */
module Extraction {
  import opened Text
  import opened Alignments
  import opened Scan
  import opened Report

  const DefaultIdentifierPadding: int := 30
  const DefaultIdentifierSubstringLength: nat := 20

  const SnpFile: string := "snps.txt"
  const IndelFile: string := "indels.txt"

  datatype Option<T> = None | Some(value: T)

  /** The two configuration keys the constructor reads; `None` is a key
      missing from the loaded YAML, for which `config.get` supplies the
      default. */
  datatype Config = Config(identifierPadding: Option<int>, identifierSubstringLength: Option<int>)

  /** The state of an `Extractor` instance that the output depends on. */
  datatype Extractor = Extractor(
    identifierPadding: int,
    identifierSubstringLength: nat,
    indelsOnly: bool,
    snpsOnly: bool)

  /** The constructor's correction: when the substring length reaches the
      padding, the padding is reflected about the substring length (it ends
      as far above it as it was below); otherwise it is kept. Either way the
      padding ends at least as large as the substring length. */
  function AdjustPadding(padding: int, substringLength: nat): (p: int)
    ensures p >= substringLength
    ensures substringLength < padding ==> p == padding
    ensures substringLength >= padding ==> p - substringLength == substringLength - padding
  {
    if substringLength >= padding then substringLength + (substringLength - padding) else padding
  }

  /** Applying the correction a second time changes nothing. */
  lemma AdjustPaddingIdempotent(padding: int, substringLength: nat)
    ensures AdjustPadding(AdjustPadding(padding, substringLength), substringLength)
         == AdjustPadding(padding, substringLength)
  {
  }

  /** The correction does not make the padding strictly wider than the
      substring length: when both are equal the padding stays equal, so an
      identifier of full length fills its field with no blank after it. */
  lemma AdjustPaddingMayBeTight(n: nat)
    ensures AdjustPadding(n, n) == n
  {
  }

  /** `Extractor.__init__`: reads the two keys with their defaults and
      applies the padding correction. A negative substring length (which
      Python slicing would read from the end) is excluded. */
  function NewExtractor(config: Config, indelsOnly: bool, snpsOnly: bool): (e: Extractor)
    requires config.identifierSubstringLength.Some? ==> config.identifierSubstringLength.value >= 0
    ensures e.identifierPadding >= e.identifierSubstringLength
    ensures e.identifierSubstringLength
         == (if config.identifierSubstringLength.Some? then config.identifierSubstringLength.value
             else DefaultIdentifierSubstringLength)
    ensures config == Config(None, None) ==> e.identifierPadding == DefaultIdentifierPadding
    ensures config.identifierPadding.None? && e.identifierSubstringLength < DefaultIdentifierPadding
            ==> e.identifierPadding == DefaultIdentifierPadding
    ensures config.identifierPadding.Some? && e.identifierSubstringLength < config.identifierPadding.value
            ==> e.identifierPadding == config.identifierPadding.value
    ensures e.identifierPadding
         == AdjustPadding(if config.identifierPadding.Some? then config.identifierPadding.value
                          else DefaultIdentifierPadding, e.identifierSubstringLength)
    ensures e.indelsOnly == indelsOnly && e.snpsOnly == snpsOnly
  {
    var padding := if config.identifierPadding.Some? then config.identifierPadding.value
                   else DefaultIdentifierPadding;
    var substringLength: nat := if config.identifierSubstringLength.Some?
                                then config.identifierSubstringLength.value
                                else DefaultIdentifierSubstringLength;
    Extractor(AdjustPadding(padding, substringLength), substringLength, indelsOnly, snpsOnly)
  }

  /** The invariant every constructed extractor keeps. It also makes the
      padding a valid format width: a negative one would make the `<` spec of
      the f-strings raise `ValueError`, so the writers require it. */
  predicate Valid(e: Extractor) {
    e.identifierPadding >= e.identifierSubstringLength
  }

  /** The table layout of the class: label `POS:`, the configured padding and
      substring length, nothing between the identifier field and the rest. */
  function LayoutOf(e: Extractor): Layout {
    Layout("POS:", e.identifierPadding, e.identifierSubstringLength, "")
  }

  /** `## Number of SNPs: '<n>'` or `## Number of indels: '<n>'`. */
  function CountLine(k: Kind, n: nat): string {
    CountPrefix(k) + Decimal(n) + "'"
  }

  function CountPrefix(k: Kind): string {
    match k
    case Snp => "## Number of SNPs: '"
    case Indel => "## Number of indels: '"
  }

  /** The count can be read back from the count line: it sits between the
      fixed prefix and a closing quote. */
  lemma CountLineReadsBack(k: Kind, n: nat)
    ensures var line := CountLine(k, n); var p := CountPrefix(k);
      && |line| == |p| + |Decimal(n)| + 1
      && line[..|p|] == p
      && line[|line| - 1] == '\''
      && AllDigits(line[|p|..|line| - 1])
      && ParseDecimal(line[|p|..|line| - 1]) == n
  {
    var line := CountLine(k, n);
    var p := CountPrefix(k);
    assert line[|p|..|line| - 1] == Decimal(n);
    DecimalRoundTrip(n);
  }

  /** The lines of one output file: count line, position header, one row per
      record. The counter and the list are passed separately, as in the
      source. */
  function ReportLines(e: Extractor, a: Alignment, k: Kind, count: nat, ps: seq<nat>): seq<string>
    requires Valid(e) && WellFormed(a) && AllBelow(ps, Length(a))
  {
    [CountLine(k, count)] + Table(LayoutOf(e), a, ps)
  }

  /** The text written to the output file. */
  function ReportText(e: Extractor, a: Alignment, k: Kind, count: nat, ps: seq<nat>): string
    requires Valid(e) && WellFormed(a) && AllBelow(ps, Length(a))
  {
    Unlines(ReportLines(e, a, k, count, ps))
  }

  /** A body row of the class's report is exactly `identifier_padding +
      2 * len(list)` characters: the identifier cut to the substring length
      and padded with blanks to the padding, then for the k-th listed column
      that record's residue at that column and a blank. */
  lemma RowShape(e: Extractor, rec: Record, ps: seq<nat>)
    requires Valid(e) && AllBelow(ps, |rec.residues|)
    ensures var row := Row(LayoutOf(e), rec, ps); var w := e.identifierPadding;
      var id := Prefix(rec.id, e.identifierSubstringLength);
      && |row| == w + 2 * |ps|
      && row[..|id|] == id
      && (forall j :: |id| <= j < w ==> row[j] == Space)
      && (forall c :: 0 <= c < |ps| ==> row[w + 2 * c] == rec.residues[ps[c]] && row[w + 2 * c + 1] == Space)
  {
    Report.RowShape(LayoutOf(e), rec, ps);
  }

  /** Cutting a written report at its line breaks gives back the count line,
      the `POS:` header and one row per record, in alignment order. */
  lemma ReportLinesReadBack(e: Extractor, a: Alignment, k: Kind, count: nat, ps: seq<nat>)
    requires Valid(e) && WellFormed(a) && NoLineBreaks(a) && AllBelow(ps, Length(a))
    ensures var lines := Lines(ReportText(e, a, k, count, ps));
      && |lines| == |a| + 2
      && lines[0] == CountLine(k, count)
      && lines[1] == Header(LayoutOf(e), ps)
      && forall i :: 0 <= i < |a| ==> lines[i + 2] == Row(LayoutOf(e), a[i], ps)
  {
    DecimalBetweenAvoids(CountPrefix(k), count, "'", Newline);
    ReadBackReport(CountLine(k, count), LayoutOf(e), a, ps);
  }

  /** `extract_snps`: scan, count, render. */
  method ExtractSnps(e: Extractor, a: Alignment) returns (text: string)
    requires Valid(e) && WellFormed(a)
    ensures text == ReportText(e, a, Snp, |Positions(Snp, a)|, Positions(Snp, a))
  {
    var snpList, snpCtr := Scan.ExtractSnps(a);
    text := ReportText(e, a, Snp, snpCtr, snpList);
  }

  /** `extract_indels`: scan, count, render. */
  method ExtractIndels(e: Extractor, a: Alignment) returns (text: string)
    requires Valid(e) && WellFormed(a)
    ensures text == ReportText(e, a, Indel, |Positions(Indel, a)|, Positions(Indel, a))
  {
    var indelList, indelCtr := Scan.ExtractIndels(a);
    text := ReportText(e, a, Indel, indelCtr, indelList);
  }

  /** `extract`: the SNP report is written unless `indels_only` is set, the
      indel report unless `snps_only` is set; the result maps each written file
      name to its text. */
  method Extract(e: Extractor, a: Alignment) returns (files: map<string, string>)
    requires Valid(e) && WellFormed(a)
    ensures SnpFile in files <==> !e.indelsOnly
    ensures IndelFile in files <==> !e.snpsOnly
    ensures files.Keys <= {SnpFile, IndelFile}
    ensures SnpFile in files ==>
      files[SnpFile] == ReportText(e, a, Snp, |Positions(Snp, a)|, Positions(Snp, a))
    ensures IndelFile in files ==>
      files[IndelFile] == ReportText(e, a, Indel, |Positions(Indel, a)|, Positions(Indel, a))
  {
    files := map[];
    if !e.indelsOnly {
      var text := ExtractSnps(e, a);
      files := files[SnpFile := text];
    }
    if !e.snpsOnly {
      var text := ExtractIndels(e, a);
      files := files[IndelFile := text];
    }
  }
}
