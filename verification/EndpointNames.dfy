// Names of subscription endpoints: a remark gets a number until it is new (_remark_validation in
// app/subscription/singbox.py and app/subscription/clash.py).

module EndpointNames {
  import opened Seqs
  import opened Decimals

  function Candidate(remark: string, c: nat): string {
    remark + " (" + Decimal(c) + ")"
  }

  lemma CandidateInjective(remark: string, c: nat, d: nat)
    requires Candidate(remark, c) == Candidate(remark, d)
    ensures c == d
  {
    var start := remark + " (";
    assert Candidate(remark, c)[|start|..|Candidate(remark, c)| - 1] == Decimal(c);
    assert Candidate(remark, d)[|start|..|Candidate(remark, d)| - 1] == Decimal(d);
    DecimalInjective(c, d);
  }

  ghost predicate TakenBelow(names: seq<string>, remark: string, c: nat) {
    forall d :: 2 <= d < c ==> Candidate(remark, d) in names
  }

  // Candidates differ, so no more of them can be taken than there are names.
  lemma Pigeonhole(names: seq<string>, remark: string, c: nat)
    requires 2 <= c && TakenBelow(names, remark, c)
    ensures c - 2 <= |names|
  {
    var taken := seq(c - 2, i requires 0 <= i < c - 2 => Candidate(remark, i + 2));
    forall i, j | 0 <= i < j < |taken| ensures taken[i] != taken[j] {
      if taken[i] == taken[j] {
        CandidateInjective(remark, i + 2, j + 2);
      }
    }
    forall x | x in ToSet(taken) ensures x in ToSet(names) {
      var i :| 0 <= i < |taken| && taken[i] == x;
      assert Candidate(remark, i + 2) in names;
    }
    DistinctCardinality(taken);
    SubsetCardinality(ToSet(taken), ToSet(names));
    SetNoLargerThanSeq(names);
  }

  // The first free candidate from c on.
  function FreeFrom(names: seq<string>, remark: string, c: nat): string
    requires 2 <= c && TakenBelow(names, remark, c)
    decreases |names| + 2 - c
  {
    Pigeonhole(names, remark, c);
    if Candidate(remark, c) !in names then Candidate(remark, c)
    else
      assert TakenBelow(names, remark, c + 1);
      Pigeonhole(names, remark, c + 1);
      FreeFrom(names, remark, c + 1)
  }

  function UniqueName(names: seq<string>, remark: string): string {
    if remark !in names then remark else FreeFrom(names, remark, 2)
  }

  // _remark_validation: the search ends after at most one probe more than there are names.
  method RemarkValidation(names: seq<string>, remark: string) returns (name: string, probes: nat)
    ensures name == UniqueName(names, remark) && name !in names
    ensures probes <= |names| + 1
  {
    if remark !in names {
      return remark, 0;
    }
    var c := 2;
    while true
      invariant 2 <= c && TakenBelow(names, remark, c)
      invariant FreeFrom(names, remark, 2) == FreeFrom(names, remark, c)
      decreases |names| + 2 - c
    {
      Pigeonhole(names, remark, c);
      name := Candidate(remark, c);
      if name !in names {
        return name, c - 1;
      }
      assert TakenBelow(names, remark, c + 1);
      Pigeonhole(names, remark, c + 1);
      c := c + 1;
    }
  }

  lemma {:induction false} FreeFromIsFree(names: seq<string>, remark: string, c: nat)
    requires 2 <= c && TakenBelow(names, remark, c)
    ensures FreeFrom(names, remark, c) !in names
    decreases |names| + 2 - c
  {
    Pigeonhole(names, remark, c);
    if Candidate(remark, c) in names {
      assert TakenBelow(names, remark, c + 1);
      Pigeonhole(names, remark, c + 1);
      FreeFromIsFree(names, remark, c + 1);
    }
  }

  lemma UniqueNameIsNew(names: seq<string>, remark: string)
    ensures UniqueName(names, remark) !in names
  {
    if remark in names {
      FreeFromIsFree(names, remark, 2);
    }
  }
}
