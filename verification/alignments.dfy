/** The in-memory multiple sequence alignment the classifiers scan: an
    ordered list of records, each an identifier and a residue string, all
    residue strings of one common length. Reading the FASTA file and checking
    the common length is Biopython's `AlignIO.read`, which is not part of this
    model; `WellFormed` is what that call guarantees on success. */
module Alignments {

  /** The gap symbol of the alignment. */
  const Gap: char := '-'

  /** One aligned sequence: `record.id` and `record.seq`. */
  datatype Record = Record(id: string, residues: string)

  type Alignment = seq<Record>

  /** At least one record, and every residue string as long as the first. */
  predicate WellFormed(a: Alignment) {
    && |a| > 0
    && forall i :: 0 <= i < |a| ==> |a[i].residues| == |a[0].residues|
  }

  /** `alignment.get_alignment_length()`. */
  function Length(a: Alignment): nat
    requires WellFormed(a)
  {
    |a[0].residues|
  }
}
