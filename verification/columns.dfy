/** The two column classifiers of `Extractor.extract_snps` and
    `Extractor.extract_indels` (and of the two standalone scripts, which use
    the same tests). */
module Columns {
  import opened Alignments

  /** `r` is a column index of a well-formed alignment. */
  predicate IsColumn(a: Alignment, r: nat) {
    WellFormed(a) && r < Length(a)
  }

  /** `set([record.seq[r] for record in alignment])`. */
  function ColumnSymbols(a: Alignment, r: nat): set<char>
    requires IsColumn(a, r)
  {
    set i | 0 <= i < |a| :: a[i].residues[r]
  }

  /** The non-gap symbols of column `r`. */
  function ResidueSymbols(a: Alignment, r: nat): set<char>
    requires IsColumn(a, r)
  {
    set i | 0 <= i < |a| && a[i].residues[r] != Gap :: a[i].residues[r]
  }

  /** The non-gap symbols are what is left of the column's symbols after
      `d.discard("-")`. */
  lemma DiscardGap(a: Alignment, r: nat)
    requires IsColumn(a, r)
    ensures ResidueSymbols(a, r) == ColumnSymbols(a, r) - {Gap}
  {
  }

  /** SNP test: more than one distinct non-gap symbol at column `r`. */
  predicate IsSnp(a: Alignment, r: nat)
    requires IsColumn(a, r)
  {
    |ResidueSymbols(a, r)| > 1
  }

  /** Indel test: `any(record.seq[r] == "-" for record in alignment)`. */
  predicate IsIndel(a: Alignment, r: nat)
    requires IsColumn(a, r)
  {
    exists i :: 0 <= i < |a| && a[i].residues[r] == Gap
  }

  /** Reference reading of the SNP test that does not mention sets: two
      records carry different residues, neither of them a gap. */
  predicate Disagree(a: Alignment, r: nat)
    requires IsColumn(a, r)
  {
    exists i, j :: 0 <= i < |a| && 0 <= j < |a| && NonGapPair(a, r, i, j)
  }

  predicate NonGapPair(a: Alignment, r: nat, i: nat, j: nat)
    requires IsColumn(a, r) && i < |a| && j < |a|
  {
    a[i].residues[r] != Gap && a[j].residues[r] != Gap && a[i].residues[r] != a[j].residues[r]
  }

  /** The set-based SNP test of the source is exactly "two records disagree
      on a non-gap residue". */
  lemma SnpIffDisagree(a: Alignment, r: nat)
    requires IsColumn(a, r)
    ensures IsSnp(a, r) <==> Disagree(a, r)
  {
    var s := ResidueSymbols(a, r);
    if IsSnp(a, r) {
      var x :| x in s;
      assert |s - {x}| == |s| - 1;
      var y :| y in s - {x};
      var i :| 0 <= i < |a| && a[i].residues[r] == x;
      var j :| 0 <= j < |a| && a[j].residues[r] == y;
      assert NonGapPair(a, r, i, j);
    }
    if Disagree(a, r) {
      var i, j :| 0 <= i < |a| && 0 <= j < |a| && NonGapPair(a, r, i, j);
      var pair := {a[i].residues[r], a[j].residues[r]};
      assert pair <= s;
      assert |pair| == 2;
      SubsetCardinality(pair, s);
    }
  }

  lemma SubsetCardinality<T>(small: set<T>, big: set<T>)
    requires small <= big
    ensures |small| <= |big|
  {
    assert big == small + (big - small);
  }

  /** Every non-gap symbol of the column equals `c`: then it is no SNP. */
  lemma AtMostOneResidue(a: Alignment, r: nat, c: char)
    requires IsColumn(a, r)
    requires forall i :: 0 <= i < |a| ==> a[i].residues[r] in {Gap, c}
    ensures !IsSnp(a, r)
  {
    assert ResidueSymbols(a, r) <= {c};
    SubsetCardinality(ResidueSymbols(a, r), {c});
  }

  /** A column of gaps only is an indel and never a SNP. */
  lemma GapOnlyColumn(a: Alignment, r: nat)
    requires IsColumn(a, r)
    requires forall i :: 0 <= i < |a| ==> a[i].residues[r] == Gap
    ensures IsIndel(a, r)
    ensures !IsSnp(a, r)
  {
    assert a[0].residues[r] == Gap;
    AtMostOneResidue(a, r, Gap);
  }

  /** With a single record no column is a SNP. */
  lemma SingleRecordNoSnp(a: Alignment, r: nat)
    requires IsColumn(a, r) && |a| == 1
    ensures !IsSnp(a, r)
  {
    AtMostOneResidue(a, r, a[0].residues[r]);
  }

  /** The indel test asks whether the gap symbol is among the column's symbols. */
  lemma IndelIffGapPresent(a: Alignment, r: nat)
    requires IsColumn(a, r)
    ensures IsIndel(a, r) <==> Gap in ColumnSymbols(a, r)
  {
  }
}
