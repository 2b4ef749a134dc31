/** Comparing two tool sequences: a longest-common-subsequence table, and a walk
    over it that lists the deletions and insertions. */
module ToolEdits {

  datatype Edit = Delete(name: string) | Insert(name: string)

  // ---------------------------------------------------------------- specification

  /** Length of a longest common subsequence. */
  function Lcs(base: seq<string>, cand: seq<string>): nat {
    if base == [] || cand == [] then 0
    else if base[0] == cand[0] then 1 + Lcs(base[1..], cand[1..])
    else
      var a, b := Lcs(base[1..], cand), Lcs(base, cand[1..]);
      if a >= b then a else b
  }

  predicate Subsequence(s: seq<string>, t: seq<string>) {
    s == [] || (t != [] && ((s[0] == t[0] && Subsequence(s[1..], t[1..])) || Subsequence(s, t[1..])))
  }

  /** Applying the edits from left to right, keeping equal names where none applies,
      turns `base` into `cand`. */
  predicate Replays(base: seq<string>, cand: seq<string>, edits: seq<Edit>)
    decreases |base| + |cand|
  {
    || (base == [] && cand == [] && edits == [])
    || (base != [] && cand != [] && base[0] == cand[0] && Replays(base[1..], cand[1..], edits))
    || (base != [] && edits != [] && edits[0] == Delete(base[0]) && Replays(base[1..], cand, edits[1..]))
    || (cand != [] && edits != [] && edits[0] == Insert(cand[0]) && Replays(base, cand[1..], edits[1..]))
  }

  /** The edits the walk lists: keep equal names, else delete as long as the rest
      loses no common name, else insert. */
  function Walk(base: seq<string>, cand: seq<string>): seq<Edit>
    decreases |base| + |cand|
  {
    if base != [] && cand != [] && base[0] == cand[0] then Walk(base[1..], cand[1..])
    else if base != [] && (cand == [] || Lcs(base[1..], cand) >= Lcs(base, cand[1..])) then
      [Delete(base[0])] + Walk(base[1..], cand)
    else if cand != [] then [Insert(cand[0])] + Walk(base, cand[1..])
    else []
  }

  // ---------------------------------------------------------------- the table

  /** The table's entry for the suffixes from `i` and `j`. */
  function LcsFrom(base: seq<string>, cand: seq<string>, i: nat, j: nat): nat
    requires i <= |base| && j <= |cand|
    decreases |base| - i + |cand| - j
  {
    if i == |base| || j == |cand| then 0
    else if base[i] == cand[j] then 1 + LcsFrom(base, cand, i + 1, j + 1)
    else
      var a, b := LcsFrom(base, cand, i + 1, j), LcsFrom(base, cand, i, j + 1);
      if a >= b then a else b
  }

  function WalkFrom(base: seq<string>, cand: seq<string>, i: nat, j: nat): seq<Edit>
    requires i <= |base| && j <= |cand|
    decreases |base| - i + |cand| - j
  {
    if i < |base| && j < |cand| && base[i] == cand[j] then WalkFrom(base, cand, i + 1, j + 1)
    else if i < |base| && (j == |cand| || LcsFrom(base, cand, i + 1, j) >= LcsFrom(base, cand, i, j + 1)) then
      [Delete(base[i])] + WalkFrom(base, cand, i + 1, j)
    else if j < |cand| then [Insert(cand[j])] + WalkFrom(base, cand, i, j + 1)
    else []
  }

  lemma {:induction false} LcsFromSuffixes(base: seq<string>, cand: seq<string>, i: nat, j: nat)
    requires i <= |base| && j <= |cand|
    ensures LcsFrom(base, cand, i, j) == Lcs(base[i..], cand[j..])
    decreases |base| - i + |cand| - j
  {
    if i < |base| && j < |cand| {
      assert base[i..][1..] == base[i + 1..] && cand[j..][1..] == cand[j + 1..];
      LcsFromSuffixes(base, cand, i + 1, j + 1);
      LcsFromSuffixes(base, cand, i + 1, j);
      LcsFromSuffixes(base, cand, i, j + 1);
    }
  }

  lemma {:induction false} WalkFromSuffixes(base: seq<string>, cand: seq<string>, i: nat, j: nat)
    requires i <= |base| && j <= |cand|
    ensures WalkFrom(base, cand, i, j) == Walk(base[i..], cand[j..])
    decreases |base| - i + |cand| - j
  {
    assert i < |base| ==> base[i..][1..] == base[i + 1..];
    assert j < |cand| ==> cand[j..][1..] == cand[j + 1..];
    if i < |base| && j < |cand| && base[i] == cand[j] {
      WalkFromSuffixes(base, cand, i + 1, j + 1);
    } else {
      if i < |base| {
        LcsFromSuffixes(base, cand, i + 1, j);
        WalkFromSuffixes(base, cand, i + 1, j);
      }
      if j < |cand| {
        LcsFromSuffixes(base, cand, i, j + 1);
        WalkFromSuffixes(base, cand, i, j + 1);
      }
    }
  }

  /** The entries of row `p` are the lengths for its suffixes. */
  predicate RowDone(lengths: array2<nat>, base: seq<string>, cand: seq<string>, p: nat)
    requires lengths.Length0 == |base| + 1 && lengths.Length1 == |cand| + 1 && p <= |base|
    reads lengths
  {
    forall q {:trigger lengths[p, q]} :: 0 <= q <= |cand| ==> lengths[p, q] == LcsFrom(base, cand, p, q)
  }

  lemma LcsStep(base: seq<string>, cand: seq<string>, i: nat, j: nat, below: nat, beside: nat, diagonal: nat)
    requires i < |base| && j < |cand|
    requires below == LcsFrom(base, cand, i + 1, j) && beside == LcsFrom(base, cand, i, j + 1)
    requires diagonal == LcsFrom(base, cand, i + 1, j + 1)
    ensures LcsFrom(base, cand, i, j) ==
            if base[i] == cand[j] then 1 + diagonal else if below >= beside then below else beside
  {
  }

  method FillRow(lengths: array2<nat>, base: seq<string>, cand: seq<string>, i: nat)
    requires lengths.Length0 == |base| + 1 && lengths.Length1 == |cand| + 1 && i < |base|
    requires RowDone(lengths, base, cand, i + 1) && lengths[i, |cand|] == 0
    modifies lengths
    ensures RowDone(lengths, base, cand, i)
    ensures forall p :: 0 <= p <= |base| && p != i && old(RowDone(lengths, base, cand, p)) ==>
            RowDone(lengths, base, cand, p)
    ensures forall p, q :: 0 <= p <= |base| && 0 <= q <= |cand| && p != i ==> lengths[p, q] == old(lengths[p, q])
  {
    var j := |cand|;
    while j > 0
      invariant 0 <= j <= |cand|
      invariant forall q {:trigger lengths[i, q]} :: j <= q <= |cand| ==> lengths[i, q] == LcsFrom(base, cand, i, q)
      invariant forall p, q :: 0 <= p <= |base| && 0 <= q <= |cand| && p != i ==> lengths[p, q] == old(lengths[p, q])
    {
      j := j - 1;
      var below, beside, diagonal := lengths[i + 1, j], lengths[i, j + 1], lengths[i + 1, j + 1];
      LcsStep(base, cand, i, j, below, beside, diagonal);
      lengths[i, j] := if base[i] == cand[j] then 1 + diagonal else if below >= beside then below else beside;
    }
  }

  /** Fills the table from the last names backwards. */
  method Lengths(base: seq<string>, cand: seq<string>) returns (lengths: array2<nat>)
    ensures fresh(lengths) && lengths.Length0 == |base| + 1 && lengths.Length1 == |cand| + 1
    ensures forall p :: 0 <= p <= |base| ==> RowDone(lengths, base, cand, p)
  {
    lengths := new nat[|base| + 1, |cand| + 1]((_, _) => 0);
    var i := |base|;
    while i > 0
      invariant 0 <= i <= |base|
      invariant forall p :: i <= p <= |base| ==> RowDone(lengths, base, cand, p)
      invariant forall p :: 0 <= p < i ==> lengths[p, |cand|] == 0
    {
      i := i - 1;
      FillRow(lengths, base, cand, i);
    }
  }

  /** The walk goes on below a row. */
  predicate GoesDown(base: seq<string>, cand: seq<string>, i: nat, j: nat)
    requires i <= |base| && j <= |cand|
  {
    i < |base| && (j == |cand| || LcsFrom(base, cand, i + 1, j) >= LcsFrom(base, cand, i, j + 1))
  }

  /** The walk from `i` and `j`, behind the edits listed so far. */
  function WalkOn(base: seq<string>, cand: seq<string>, i: nat, j: nat, edits: seq<Edit>): seq<Edit>
    requires i <= |base| && j <= |cand|
    decreases |base| - i + |cand| - j
  {
    if i < |base| && j < |cand| && base[i] == cand[j] then WalkOn(base, cand, i + 1, j + 1, edits)
    else if GoesDown(base, cand, i, j) then WalkOn(base, cand, i + 1, j, edits + [Delete(base[i])])
    else if j < |cand| then WalkOn(base, cand, i, j + 1, edits + [Insert(cand[j])])
    else edits
  }

  lemma {:induction false} WalkOnAppends(base: seq<string>, cand: seq<string>, i: nat, j: nat, edits: seq<Edit>)
    requires i <= |base| && j <= |cand|
    ensures WalkOn(base, cand, i, j, edits) == edits + WalkFrom(base, cand, i, j)
    decreases |base| - i + |cand| - j
  {
    if i < |base| && j < |cand| && base[i] == cand[j] {
      WalkOnAppends(base, cand, i + 1, j + 1, edits);
    } else if GoesDown(base, cand, i, j) {
      WalkOnAppends(base, cand, i + 1, j, edits + [Delete(base[i])]);
    } else if j < |cand| {
      WalkOnAppends(base, cand, i, j + 1, edits + [Insert(cand[j])]);
    }
  }

  lemma WalkOnIsWalk(base: seq<string>, cand: seq<string>)
    ensures WalkOn(base, cand, 0, 0, []) == Walk(base, cand)
  {
    WalkOnAppends(base, cand, 0, 0, []);
    WalkFromSuffixes(base, cand, 0, 0);
    assert base[0..] == base && cand[0..] == cand;
  }

  method CompareEntries(lengths: array2<nat>, base: seq<string>, cand: seq<string>, i: nat, j: nat) returns (down: bool)
    requires lengths.Length0 == |base| + 1 && lengths.Length1 == |cand| + 1 && i <= |base| && j <= |cand|
    requires forall p :: 0 <= p <= |base| ==> RowDone(lengths, base, cand, p)
    ensures down == GoesDown(base, cand, i, j)
  {
    if i == |base| { return false; }
    if j == |cand| { return true; }
    assert RowDone(lengths, base, cand, i) && RowDone(lengths, base, cand, i + 1);
    down := lengths[i + 1, j] >= lengths[i, j + 1];
  }

  /** The listed edits are exactly the walk of the specification. */
  method Edits(base: seq<string>, cand: seq<string>) returns (edits: seq<Edit>)
    ensures edits == Walk(base, cand)
  {
    var lengths := Lengths(base, cand);
    edits := [];
    var i, j := 0, 0;
    WalkOnIsWalk(base, cand);
    while i < |base| || j < |cand|
      invariant 0 <= i <= |base| && 0 <= j <= |cand|
      invariant forall p :: 0 <= p <= |base| ==> RowDone(lengths, base, cand, p)
      invariant WalkOn(base, cand, i, j, edits) == Walk(base, cand)
      decreases |base| - i + |cand| - j
    {
      var down := CompareEntries(lengths, base, cand, i, j);
      if i < |base| && j < |cand| && base[i] == cand[j] {
        i, j := i + 1, j + 1;
      } else if down {
        edits := edits + [Delete(base[i])];
        i := i + 1;
      } else {
        edits := edits + [Insert(cand[j])];
        j := j + 1;
      }
    }
  }

  // ---------------------------------------------------------------- properties

  lemma {:induction false} WalkReplays(base: seq<string>, cand: seq<string>)
    ensures Replays(base, cand, Walk(base, cand))
    ensures |Walk(base, cand)| == |base| + |cand| - 2 * Lcs(base, cand)
    decreases |base| + |cand|
  {
    var w := Walk(base, cand);
    if base != [] && cand != [] && base[0] == cand[0] {
      WalkReplays(base[1..], cand[1..]);
    } else if base != [] && (cand == [] || Lcs(base[1..], cand) >= Lcs(base, cand[1..])) {
      WalkReplays(base[1..], cand);
      assert w[1..] == Walk(base[1..], cand);
    } else if cand != [] {
      WalkReplays(base, cand[1..]);
      assert w[1..] == Walk(base, cand[1..]);
    }
  }

  /** Dropping one name costs at most one common name. */
  lemma {:induction false} LcsDrop(base: seq<string>, cand: seq<string>)
    ensures base != [] ==> Lcs(base[1..], cand) <= Lcs(base, cand) <= Lcs(base[1..], cand) + 1
    ensures cand != [] ==> Lcs(base, cand[1..]) <= Lcs(base, cand) <= Lcs(base, cand[1..]) + 1
    decreases |base| + |cand|
  {
    if base != [] && cand != [] {
      LcsDrop(base[1..], cand);
      LcsDrop(base, cand[1..]);
      LcsDrop(base[1..], cand[1..]);
    }
  }

  /** Every insert/delete script is at least that long. */
  lemma {:induction false} ReplayNeedsEdits(base: seq<string>, cand: seq<string>, edits: seq<Edit>)
    requires Replays(base, cand, edits)
    ensures |edits| >= |base| + |cand| - 2 * Lcs(base, cand)
    decreases |base| + |cand|
  {
    LcsDrop(base, cand);
    if base != [] && cand != [] && base[0] == cand[0] && Replays(base[1..], cand[1..], edits) {
      ReplayNeedsEdits(base[1..], cand[1..], edits);
    } else if base != [] && edits != [] && edits[0] == Delete(base[0]) && Replays(base[1..], cand, edits[1..]) {
      ReplayNeedsEdits(base[1..], cand, edits[1..]);
    } else if base != [] || cand != [] {
      ReplayNeedsEdits(base, cand[1..], edits[1..]);
    }
  }

  /** The edit list replays the baseline into the candidate, is as long as the
      common subsequence leaves on both sides, and no shorter list replays. */
  lemma EditsAreMinimal(base: seq<string>, cand: seq<string>)
    ensures Replays(base, cand, Walk(base, cand))
    ensures |Walk(base, cand)| == |base| + |cand| - 2 * Lcs(base, cand)
    ensures forall others :: Replays(base, cand, others) ==> |Walk(base, cand)| <= |others|
  {
    WalkReplays(base, cand);
    forall others | Replays(base, cand, others)
      ensures |Walk(base, cand)| <= |others|
    {
      ReplayNeedsEdits(base, cand, others);
    }
  }

  /** `Lcs` is what its name says: some common subsequence has that length, and no
      common subsequence is longer. */
  lemma {:induction false} LcsIsReached(base: seq<string>, cand: seq<string>) returns (s: seq<string>)
    ensures Subsequence(s, base) && Subsequence(s, cand) && |s| == Lcs(base, cand)
    decreases |base| + |cand|
  {
    if base == [] || cand == [] {
      s := [];
    } else if base[0] == cand[0] {
      var t := LcsIsReached(base[1..], cand[1..]);
      s := [base[0]] + t;
      assert s[1..] == t;
    } else if Lcs(base[1..], cand) >= Lcs(base, cand[1..]) {
      s := LcsIsReached(base[1..], cand);
    } else {
      s := LcsIsReached(base, cand[1..]);
    }
  }

  lemma {:induction false} LcsIsLongest(base: seq<string>, cand: seq<string>, s: seq<string>)
    requires Subsequence(s, base) && Subsequence(s, cand)
    ensures |s| <= Lcs(base, cand)
    decreases |base| + |cand|
  {
    if s != [] {
      LcsDrop(base, cand);
      if s[0] == base[0] == cand[0] && Subsequence(s[1..], base[1..]) && Subsequence(s[1..], cand[1..]) {
        LcsIsLongest(base[1..], cand[1..], s[1..]);
      } else if Subsequence(s, base[1..]) {
        LcsIsLongest(base[1..], cand, s);
      } else {
        LcsIsLongest(base, cand[1..], s);
      }
    }
  }

  // ---------------------------------------------------------------- modal sequence

  datatype Sample = Sample(names: seq<string>, repeat: int)

  function Occurrences(samples: seq<Sample>, names: seq<string>): nat {
    if samples == [] then 0
    else Occurrences(samples[..|samples| - 1], names) + (if samples[|samples| - 1].names == names then 1 else 0)
  }

  /** Sample `k` wins against sample `m`: more frequent, or as frequent and an
      earlier repeat, or not after it. */
  predicate Wins(samples: seq<Sample>, k: nat, m: nat)
    requires k < |samples| && m < |samples|
  {
    var a, b := Occurrences(samples, samples[k].names), Occurrences(samples, samples[m].names);
    a > b || (a == b && (samples[k].repeat < samples[m].repeat || (samples[k].repeat == samples[m].repeat && k <= m)))
  }

  lemma {:induction false} OccursAtLeastOnce(samples: seq<Sample>, k: nat)
    requires k < |samples|
    ensures Occurrences(samples, samples[k].names) >= 1
  {
    if k < |samples| - 1 { OccursAtLeastOnce(samples[..|samples| - 1], k); }
  }

  /** The modal sequence is that of the sample winning against every other. */
  method ModalSequence(samples: seq<Sample>) returns (names: seq<string>, count: nat, total: nat)
    ensures total == |samples|
    ensures samples == [] ==> names == [] && count == 0
    ensures samples != [] ==>
              exists k: nat :: k < |samples| && names == samples[k].names && count == Occurrences(samples, names)
                               && forall m: nat :: m < |samples| ==> Wins(samples, k, m)
  {
    names, count, total := [], 0, |samples|;
    ghost var best: nat := 0;
    var earliest := 0x7FFF_FFFF_FFFF_FFFF;
    var i := 0;
    while i < |samples|
      invariant 0 <= i <= |samples|
      invariant i == 0 ==> names == [] && count == 0
      invariant i > 0 ==> best < i && names == samples[best].names
      invariant i > 0 ==> count == Occurrences(samples, names) && earliest == samples[best].repeat
      invariant i > 0 ==> forall m: nat :: m < i ==> Wins(samples, best, m)
    {
      var occurs := 0;
      var j := 0;
      while j < |samples|
        invariant 0 <= j <= |samples|
        invariant occurs == Occurrences(samples[..j], samples[i].names)
      {
        assert samples[..j + 1][..j] == samples[..j];
        if samples[j].names == samples[i].names { occurs := occurs + 1; }
        j := j + 1;
      }
      assert samples[..j] == samples;
      OccursAtLeastOnce(samples, i);
      ghost var was := best;
      if occurs > count || (occurs == count && samples[i].repeat < earliest) {
        names, count, earliest := samples[i].names, occurs, samples[i].repeat;
        best := i;
      }
      forall m: nat | m <= i
        ensures Wins(samples, best, m)
      {
        if m < i { assert Wins(samples, was, m); }
      }
      i := i + 1;
    }
  }
}
