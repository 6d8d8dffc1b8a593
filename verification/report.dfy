/** The fixed-width table both report writers produce after the count line:
    a position header naming every selected column 1-based, then one row per
    record with its identifier field and the residue found at each selected
    column. The two writers differ only in the header label, the width and
    truncation of the identifier field, and a separator between the field and
    the rest of the line, which `Layout` gathers. */
module Report {
  import opened Text
  import opened Alignments
  import opened Scan

  /** `heading` heads the position line; identifiers are cut to `idLength`
      characters and left-justified to `width`; `separator` follows the
      first field on the header and on every row. */
  datatype Layout = Layout(heading: string, width: int, idLength: nat, separator: string)

  /** Width of the first field once `heading` is left-justified: `ljust`
      never truncates. */
  function LabelWidth(layout: Layout): nat {
    if |layout.heading| >= layout.width then |layout.heading| else layout.width
  }

  /** `str(i+1) for i in positions`. */
  function PositionLabels(ps: seq<nat>): (labels: seq<string>)
    ensures |labels| == |ps|
    ensures forall k :: 0 <= k < |ps| ==> labels[k] == Decimal(ps[k] + 1)
  {
    seq(|ps|, k requires 0 <= k < |ps| => Decimal(ps[k] + 1))
  }

  /** The position header line (without its line break). */
  function Header(layout: Layout, ps: seq<nat>): string {
    LeftJustify(layout.heading, layout.width) + layout.separator + PositionField(ps)
  }

  /** `record.id[:idLength]` left-justified to `width`. */
  function IdentifierField(layout: Layout, id: string): string {
    LeftJustify(Prefix(id, layout.idLength), layout.width)
  }

  /** The residue cells of one row: `seq[i] + " "` for each listed column. */
  function Cells(residues: string, ps: seq<nat>): (c: string)
    requires AllBelow(ps, |residues|)
    ensures |c| == 2 * |ps|
    ensures forall k :: 0 <= k < |ps| ==> c[2 * k] == residues[ps[k]] && c[2 * k + 1] == Space
  {
    if |ps| == 0 then []
    else
      var rest := Cells(residues, ps[1..]);
      assert forall k :: 1 <= k < |ps| ==> ps[1..][k - 1] == ps[k];
      [residues[ps[0]], Space] + rest
  }

  /** One body row (without its line break). */
  function Row(layout: Layout, rec: Record, ps: seq<nat>): string
    requires AllBelow(ps, |rec.residues|)
  {
    IdentifierField(layout, rec.id) + layout.separator + Cells(rec.residues, ps)
  }

  /** `for record in alignment`: one row per record, in alignment order. */
  function Rows(layout: Layout, a: Alignment, ps: seq<nat>): (rows: seq<string>)
    requires WellFormed(a) && AllBelow(ps, Length(a))
    ensures |rows| == |a|
    ensures forall i :: 0 <= i < |a| ==> rows[i] == Row(layout, a[i], ps)
  {
    seq(|a|, i requires 0 <= i < |a| => Row(layout, a[i], ps))
  }

  /** Header line followed by the body rows. */
  function Table(layout: Layout, a: Alignment, ps: seq<nat>): seq<string>
    requires WellFormed(a) && AllBelow(ps, Length(a))
  {
    [Header(layout, ps)] + Rows(layout, a, ps)
  }

  // ---------------------------------------------------------------------
  // Shape of the header

  /** The header is the label left-justified to the field width (never cut),
      the separator, then the position field. */
  lemma HeaderLayout(layout: Layout, ps: seq<nat>)
    ensures var h := Header(layout, ps); var w := LabelWidth(layout); var sw := |layout.separator|;
      && |h| >= w + sw
      && h[..|layout.heading|] == layout.heading
      && (forall j :: |layout.heading| <= j < w ==> h[j] == Space)
      && h[w..w + sw] == layout.separator
      && h[w + sw..] == PositionField(ps)
  {
    var h := Header(layout, ps);
    var w := LabelWidth(layout);
    var sw := |layout.separator|;
    var just := LeftJustify(layout.heading, layout.width);
    assert h == just + layout.separator + PositionField(ps);
    assert h[..|layout.heading|] == just[..|layout.heading|];
    assert h[w..w + sw] == layout.separator;
    assert h[w + sw..] == PositionField(ps);
  }

  /** `" ".join(str(i+1) for i in positions)`. */
  function PositionField(ps: seq<nat>): string {
    Join(PositionLabels(ps), Space)
  }

  /** Labels are all digits, so no label holds a non-digit character. */
  lemma LabelsAvoid(ps: seq<nat>, c: char)
    requires !IsDigit(c)
    ensures forall k :: 0 <= k < |ps| ==> c !in PositionLabels(ps)[k]
  {
    var labels := PositionLabels(ps);
    forall k | 0 <= k < |ps|
      ensures c !in labels[k]
    {
      assert AllDigits(labels[k]);
    }
  }

  /** Every label is worth its position plus one. */
  lemma LabelsParse(ps: seq<nat>)
    ensures forall k :: 0 <= k < |ps| ==> ParseDecimal(PositionLabels(ps)[k]) == ps[k] + 1
  {
    forall k | 0 <= k < |ps|
      ensures ParseDecimal(PositionLabels(ps)[k]) == ps[k] + 1
    {
      DecimalRoundTrip(ps[k] + 1);
    }
  }

  /** A non-empty position field ends in the last label's final digit. */
  lemma FieldEndsInDigit(ps: seq<nat>)
    requires |ps| > 0
    ensures |PositionField(ps)| > 0 && IsDigit(PositionField(ps)[|PositionField(ps)| - 1])
  {
    var labels := PositionLabels(ps);
    JoinEndsWithLast(labels, Space);
    var f := PositionField(ps);
    var last := labels[|labels| - 1];
    assert AllDigits(last);
    assert f[|f| - 1] == f[|f| - |last|..][|last| - 1];
  }

  /** The 1-based positions can be read back from the position field:
      splitting it on blanks gives one decimal label per position, each worth
      `position + 1`, and the field ends in a digit (no trailing blank). With
      no positions the field is empty. */
  lemma PositionFieldReadsBack(ps: seq<nat>)
    ensures |ps| == 0 ==> PositionField(ps) == []
    ensures |ps| > 0 ==>
      && Split(PositionField(ps), Space) == PositionLabels(ps)
      && (forall k :: 0 <= k < |ps| ==> ParseDecimal(PositionLabels(ps)[k]) == ps[k] + 1)
      && IsDigit(PositionField(ps)[|PositionField(ps)| - 1])
  {
    if |ps| > 0 {
      LabelsAvoid(ps, Space);
      SplitJoin(PositionLabels(ps), Space);
      LabelsParse(ps);
      FieldEndsInDigit(ps);
    }
  }

  // ---------------------------------------------------------------------
  // Shape of a row

  /** Given a field width at least the truncation length, every row is the
      truncated identifier padded with blanks to exactly `width`, the
      separator, then for the k-th listed column that record's residue at that
      column followed by one blank. */
  lemma RowShape(layout: Layout, rec: Record, ps: seq<nat>)
    requires layout.width >= layout.idLength
    requires AllBelow(ps, |rec.residues|)
    ensures var row := Row(layout, rec, ps); var w := layout.width; var sw := |layout.separator|;
      var id := Prefix(rec.id, layout.idLength);
      && |row| == w + sw + 2 * |ps|
      && row[..|id|] == id
      && (forall j :: |id| <= j < w ==> row[j] == Space)
      && row[w..w + sw] == layout.separator
      && (forall k :: 0 <= k < |ps| ==>
            row[w + sw + 2 * k] == rec.residues[ps[k]] && row[w + sw + 2 * k + 1] == Space)
  {
    var field := IdentifierField(layout, rec.id);
    var cells := Cells(rec.residues, ps);
    assert |field| == layout.width;
    ThreeParts(field, layout.separator, cells);
  }

  /** Where the pieces of `x + y + z` sit. */
  lemma ThreeParts(x: string, y: string, z: string)
    ensures var t := x + y + z;
      && |t| == |x| + |y| + |z|
      && t[..|x|] == x
      && (forall j :: 0 <= j < |x| ==> t[j] == x[j])
      && t[|x|..|x| + |y|] == y
      && (forall j :: 0 <= j < |z| ==> t[|x| + |y| + j] == z[j])
  {
  }

  // ---------------------------------------------------------------------
  // Line structure

  /** No identifier and no residue string holds a line break (FASTA text is
      read line by line, so a parsed record cannot contain one). */
  predicate NoLineBreaks(a: Alignment) {
    forall i :: 0 <= i < |a| ==> Newline !in a[i].id && Newline !in a[i].residues
  }

  lemma LeftJustifyAvoids(s: string, w: int, c: char)
    requires c != Space && c !in s
    ensures c !in LeftJustify(s, w)
  {
    var r := LeftJustify(s, w);
    forall j | 0 <= j < |r|
      ensures r[j] != c
    {
      if j < |s| {
        assert r[j] == r[..|s|][j];
      }
    }
  }

  lemma PrefixAvoids(s: string, n: nat, c: char)
    requires c !in s
    ensures c !in Prefix(s, n)
  {
    var p := Prefix(s, n);
    forall j | 0 <= j < |p|
      ensures p[j] != c
    {
      assert p[j] == s[j];
    }
  }

  lemma CellsAvoid(residues: string, ps: seq<nat>, c: char)
    requires AllBelow(ps, |residues|)
    requires c != Space && c !in residues
    ensures c !in Cells(residues, ps)
  {
    var cells := Cells(residues, ps);
    forall j | 0 <= j < |cells|
      ensures cells[j] != c
    {
      var k := j / 2;
      assert j == 2 * k || j == 2 * k + 1;
      assert cells[2 * k] == residues[ps[k]];
    }
  }

  /** No line of the table holds a line break, so writing each followed by
      `"\n"` and cutting the file at line breaks gives the lines back. */
  lemma TableHasNoLineBreaks(layout: Layout, a: Alignment, ps: seq<nat>)
    requires WellFormed(a) && AllBelow(ps, Length(a)) && NoLineBreaks(a)
    requires Newline !in layout.heading && Newline !in layout.separator
    ensures forall i :: 0 <= i < |Table(layout, a, ps)| ==> Newline !in Table(layout, a, ps)[i]
  {
    var t := Table(layout, a, ps);
    LabelsAvoid(ps, Newline);
    JoinAvoids(PositionLabels(ps), Space, Newline);
    assert Newline !in PositionField(ps);
    LeftJustifyAvoids(layout.heading, layout.width, Newline);
    assert Newline !in t[0];
    forall i | 1 <= i < |t|
      ensures Newline !in t[i]
    {
      var rec := a[i - 1];
      assert t[i] == Row(layout, rec, ps);
      PrefixAvoids(rec.id, layout.idLength, Newline);
      LeftJustifyAvoids(Prefix(rec.id, layout.idLength), layout.width, Newline);
      CellsAvoid(rec.residues, ps, Newline);
    }
  }

  /** A report file is one first line followed by the table; when none of its
      parts holds a line break, cutting the written text at line breaks gives
      exactly those lines back. */
  lemma ReadBackReport(first: string, layout: Layout, a: Alignment, ps: seq<nat>)
    requires WellFormed(a) && AllBelow(ps, Length(a)) && NoLineBreaks(a)
    requires Newline !in first && Newline !in layout.heading && Newline !in layout.separator
    ensures Lines(Unlines([first] + Table(layout, a, ps))) == [first] + Table(layout, a, ps)
  {
    var lines := [first] + Table(layout, a, ps);
    TableHasNoLineBreaks(layout, a, ps);
    forall i | 0 <= i < |lines|
      ensures Newline !in lines[i]
    {
      if i > 0 {
        assert lines[i] == Table(layout, a, ps)[i - 1];
      }
    }
    LinesUnlines(lines);
  }
}
