/** The column scans: `for r in range(0, alignment.get_alignment_length())`,
    appending every column the classifier accepts and counting them. */
module Scan {
  import opened Alignments
  import opened Columns

  /** Which of the two variant kinds a scan collects. */
  datatype Kind = Snp | Indel

  predicate Selects(k: Kind, a: Alignment, r: nat)
    requires IsColumn(a, r)
  {
    match k
    case Snp => IsSnp(a, r)
    case Indel => IsIndel(a, r)
  }

  predicate StrictlyAscending(ps: seq<nat>) {
    forall i, j :: 0 <= i < j < |ps| ==> ps[i] < ps[j]
  }

  predicate AllBelow(ps: seq<nat>, n: nat) {
    forall i :: 0 <= i < |ps| ==> ps[i] < n
  }

  /** The list the loop has built after visiting columns `0 .. n-1`. */
  function PositionsBelow(k: Kind, a: Alignment, n: nat): (ps: seq<nat>)
    requires WellFormed(a) && n <= Length(a)
    ensures AllBelow(ps, n)
    ensures forall r :: 0 <= r < n ==> (r in ps <==> Selects(k, a, r))
    decreases n
  {
    if n == 0 then []
    else
      var ps := PositionsBelow(k, a, n - 1);
      if Selects(k, a, n - 1) then ps + [n - 1] else ps
  }

  /** `snp_list` / `indel_list` once the loop has finished. */
  function Positions(k: Kind, a: Alignment): (ps: seq<nat>)
    requires WellFormed(a)
    ensures StrictlyAscending(ps)
    ensures AllBelow(ps, Length(a))
    ensures forall r :: 0 <= r < Length(a) ==> (r in ps <==> Selects(k, a, r))
  {
    PositionsBelowAscending(k, a, Length(a));
    PositionsBelow(k, a, Length(a))
  }

  /** Columns are appended in increasing order, so the list is strictly
      ascending. */
  lemma {:induction false} PositionsBelowAscending(k: Kind, a: Alignment, n: nat)
    requires WellFormed(a) && n <= Length(a)
    ensures StrictlyAscending(PositionsBelow(k, a, n))
    decreases n
  {
    if n > 0 {
      PositionsBelowAscending(k, a, n - 1);
    }
  }

  /** One more iteration of the loop appends column `n` exactly when the
      classifier accepts it. */
  lemma PositionsStep(k: Kind, a: Alignment, n: nat)
    requires WellFormed(a) && n < Length(a)
    ensures Selects(k, a, n) ==> PositionsBelow(k, a, n + 1) == PositionsBelow(k, a, n) + [n]
    ensures !Selects(k, a, n) ==> PositionsBelow(k, a, n + 1) == PositionsBelow(k, a, n)
  {
  }

  /** The set the list enumerates, written as a comprehension. */
  function Selected(k: Kind, a: Alignment): set<nat>
    requires WellFormed(a)
  {
    set r: nat | r < Length(a) && Selects(k, a, r)
  }

  /** Two strictly ascending lists with the same members are the same list. */
  lemma {:induction false} AscendingUnique(xs: seq<nat>, ys: seq<nat>)
    requires StrictlyAscending(xs) && StrictlyAscending(ys)
    requires forall v :: v in xs <==> v in ys
    ensures xs == ys
    decreases |xs|
  {
    HeadIsMember(xs);
    HeadIsMember(ys);
    if |xs| > 0 && |ys| > 0 {
      assert xs[0] == ys[0];
      forall v
        ensures v in xs[1..] <==> v in ys[1..]
      {
        if v in xs[1..] {
          var i :| 1 <= i < |xs| && xs[i] == v;
          assert v in ys;
          assert v != ys[0];
        }
        if v in ys[1..] {
          var j :| 1 <= j < |ys| && ys[j] == v;
          assert v in xs;
          assert v != xs[0];
        }
      }
      AscendingUnique(xs[1..], ys[1..]);
      assert xs == [xs[0]] + xs[1..];
      assert ys == [ys[0]] + ys[1..];
    }
  }

  /** The position list is the ascending enumeration of the selected set, and
      the only list with that property: membership is exactly the classifier. */
  lemma PositionsEnumerateSelected(k: Kind, a: Alignment, ps: seq<nat>)
    requires WellFormed(a)
    requires StrictlyAscending(ps)
    ensures (forall v :: v in ps <==> v in Selected(k, a)) <==> ps == Positions(k, a)
  {
    var qs := Positions(k, a);
    if forall v :: v in ps <==> v in Selected(k, a) {
      forall v
        ensures v in ps <==> v in qs
      {
        if v in qs {
          var i :| 0 <= i < |qs| && qs[i] == v;
        }
      }
      AscendingUnique(ps, qs);
    }
    if ps == qs {
      forall v
        ensures v in ps <==> v in Selected(k, a)
      {
        if v in ps {
          var i :| 0 <= i < |ps| && ps[i] == v;
        }
      }
    }
  }

  /** A strictly ascending list holds no index twice. */
  lemma AscendingHasNoDuplicates(ps: seq<nat>, i: nat, j: nat)
    requires StrictlyAscending(ps)
    requires i < |ps| && j < |ps| && ps[i] == ps[j]
    ensures i == j
  {
  }

  /** An alignment with no columns yields empty lists of both kinds. */
  lemma EmptyAlignmentHasNoVariants(k: Kind, a: Alignment)
    requires WellFormed(a) && Length(a) == 0
    ensures Positions(k, a) == []
  {
  }

  lemma HeadIsMember(ps: seq<nat>)
    ensures |ps| > 0 ==> ps[0] in ps
  {
  }

  /** A one-record alignment has no SNPs. */
  lemma SingleRecordHasNoSnps(a: Alignment)
    requires WellFormed(a) && |a| == 1
    ensures Positions(Snp, a) == []
  {
    var ps := Positions(Snp, a);
    forall r | 0 <= r < Length(a)
      ensures !Selects(Snp, a, r)
    {
      SingleRecordNoSnp(a, r);
    }
    HeadIsMember(ps);
  }

  /** An alignment without any gap symbol has no indels. */
  lemma GapFreeHasNoIndels(a: Alignment)
    requires WellFormed(a)
    requires forall i :: 0 <= i < |a| ==> Gap !in a[i].residues
    ensures Positions(Indel, a) == []
  {
    var ps := Positions(Indel, a);
    forall r, i | 0 <= r < Length(a) && 0 <= i < |a|
      ensures a[i].residues[r] != Gap
    {
      assert a[i].residues[r] in a[i].residues;
    }
    HeadIsMember(ps);
  }

  // ---------------------------------------------------------------------
  // The loops as written

  /** The inner list comprehension of `extract_snps`, one record at a time. */
  method CollectColumn(a: Alignment, r: nat) returns (d: set<char>)
    requires IsColumn(a, r)
    ensures d == ColumnSymbols(a, r)
  {
    d := {};
    var i := 0;
    while i < |a|
      invariant 0 <= i <= |a|
      invariant forall j :: 0 <= j < i ==> a[j].residues[r] in d
      invariant forall c :: c in d ==> exists j :: 0 <= j < i && a[j].residues[r] == c
    {
      d := d + {a[i].residues[r]};
      i := i + 1;
    }
    assert d == ColumnSymbols(a, r);
  }

  /** The body of the `extract_snps` loop: collect, discard the gap, compare
      the size with one. */
  method SnpColumn(a: Alignment, r: nat) returns (snp: bool)
    requires IsColumn(a, r)
    ensures snp <==> IsSnp(a, r)
  {
    var d := CollectColumn(a, r);
    d := d - {Gap};
    DiscardGap(a, r);
    snp := |d| > 1;
  }

  /** `any(record.seq[r] == "-" for record in alignment)`, stopping at the
      first gap found. */
  method AnyGap(a: Alignment, r: nat) returns (found: bool)
    requires IsColumn(a, r)
    ensures found <==> IsIndel(a, r)
  {
    found := false;
    var i := 0;
    while i < |a| && !found
      invariant 0 <= i <= |a|
      invariant found ==> IsIndel(a, r)
      invariant !found ==> forall j :: 0 <= j < i ==> a[j].residues[r] != Gap
    {
      found := a[i].residues[r] == Gap;
      i := i + 1;
    }
  }

  /** The loop of `extract_snps`: `snp_list` and `snp_ctr`. */
  method ExtractSnps(a: Alignment) returns (snpList: seq<nat>, snpCtr: nat)
    requires WellFormed(a)
    ensures snpList == Positions(Snp, a)
    ensures snpCtr == |snpList|
  {
    snpCtr := 0;
    snpList := [];
    var r := 0;
    while r < Length(a)
      invariant 0 <= r <= Length(a)
      invariant snpList == PositionsBelow(Snp, a, r)
      invariant snpCtr == |snpList|
    {
      var snp := SnpColumn(a, r);
      PositionsStep(Snp, a, r);
      if snp {
        snpList := snpList + [r];
        snpCtr := snpCtr + 1;
      }
      r := r + 1;
    }
  }

  /** The loop of `extract_indels`: `indel_list` and `indel_ctr`. */
  method ExtractIndels(a: Alignment) returns (indelList: seq<nat>, indelCtr: nat)
    requires WellFormed(a)
    ensures indelList == Positions(Indel, a)
    ensures indelCtr == |indelList|
  {
    indelCtr := 0;
    indelList := [];
    var r := 0;
    while r < Length(a)
      invariant 0 <= r <= Length(a)
      invariant indelList == PositionsBelow(Indel, a, r)
      invariant indelCtr == |indelList|
    {
      var gapped := AnyGap(a, r);
      PositionsStep(Indel, a, r);
      if gapped {
        indelList := indelList + [r];
        indelCtr := indelCtr + 1;
      }
      r := r + 1;
    }
  }
}
