/**
 * The index pairs (i, j) with i < j < n, in the order of the nested loops
 * `for i := 0; i < n; i++ { for j := i + 1; j < n; j++ { ... } }` that the
 * chat server and the friendship use case both run over a list of user ids.
 */
module IndexPairs {

  /** The pairs visited by the inner loop for a fixed i. */
  function Row(n: nat, i: nat): (r: seq<(nat, nat)>)
    ensures |r| == if i < n then n - i - 1 else 0
    ensures forall k :: 0 <= k < |r| ==> r[k] == (i, i + 1 + k)
  {
    seq(if i < n then n - i - 1 else 0, k requires 0 <= k => (i, i + 1 + k))
  }

  /** The pairs visited before the outer loop reaches i. */
  function PairsBefore(n: nat, i: nat): seq<(nat, nat)>
  {
    if i == 0 then [] else PairsBefore(n, i - 1) + Row(n, i - 1)
  }

  /** Every pair the nested loops visit. */
  function AllPairs(n: nat): seq<(nat, nat)>
  {
    PairsBefore(n, n)
  }

  /** Lexicographic order on pairs. */
  predicate LexLess(p: (nat, nat), q: (nat, nat))
  {
    p.0 < q.0 || (p.0 == q.0 && p.1 < q.1)
  }

  /** The pairs before row i are exactly those with first index below i. */
  lemma {:induction false} PairsBeforeMembers(n: nat, i: nat)
    ensures forall p: (nat, nat) :: p in PairsBefore(n, i) <==> p.0 < i && p.0 < p.1 < n
  {
    if i > 0 {
      PairsBeforeMembers(n, i - 1);
      forall p: (nat, nat) | p.0 < i && p.0 < p.1 < n ensures p in PairsBefore(n, i) {
        if p.0 == i - 1 {
          assert Row(n, i - 1)[p.1 - i] == p;
        }
      }
    }
  }

  /** Row i comes after all earlier rows, and the pairs are visited in increasing lexicographic order. */
  lemma {:induction false} PairsBeforeSorted(n: nat, i: nat)
    ensures forall a, b :: 0 <= a < b < |PairsBefore(n, i)| ==> LexLess(PairsBefore(n, i)[a], PairsBefore(n, i)[b])
  {
    if i > 0 {
      PairsBeforeSorted(n, i - 1);
      PairsBeforeMembers(n, i - 1);
      var p := PairsBefore(n, i - 1);
      var r := Row(n, i - 1);
      forall a, b | 0 <= a < b < |p + r| ensures LexLess((p + r)[a], (p + r)[b]) {
        if b >= |p| && a < |p| {
          assert p[a] in p;
        }
      }
    }
  }

  /** The number of pairs before row i, doubled. */
  lemma {:induction false} PairsBeforeLength(n: nat, i: nat)
    requires i <= n
    ensures 2 * |PairsBefore(n, i)| == i * (2 * n - i - 1)
  {
    if i > 0 {
      PairsBeforeLength(n, i - 1);
      calc {
        2 * |PairsBefore(n, i)|;
        2 * |PairsBefore(n, i - 1)| + 2 * (n - i);
        (i - 1) * (2 * n - i) + 2 * (n - i);
        { assert (i - 1) * (2 * n - i) == i * (2 * n - i) - (2 * n - i); }
        i * (2 * n - i) - 2 * n + i + 2 * n - 2 * i;
        i * (2 * n - i) - i;
        i * (2 * n - i - 1);
      }
    }
  }

  /** All pairs: exactly i < j < n, in increasing lexicographic order, n(n-1)/2 of them. */
  lemma AllPairsFacts(n: nat)
    ensures forall p: (nat, nat) :: p in AllPairs(n) <==> p.0 < p.1 < n
    ensures forall a, b :: 0 <= a < b < |AllPairs(n)| ==> LexLess(AllPairs(n)[a], AllPairs(n)[b])
    ensures 2 * |AllPairs(n)| == n * (n - 1)
  {
    PairsBeforeMembers(n, n);
    PairsBeforeSorted(n, n);
    PairsBeforeLength(n, n);
  }

  /** The pairs before a row are a prefix of the pairs before any later row. */
  lemma {:induction false} PairsBeforePrefix(n: nat, i: nat, k: nat)
    requires i <= k
    ensures PairsBefore(n, i) <= PairsBefore(n, k)
    decreases k
  {
    if i < k {
      PairsBeforePrefix(n, i, k - 1);
    }
  }

  /** The outer loop may stop at n - 1: the last row is empty. */
  lemma LastRowEmpty(n: nat)
    requires n > 0
    ensures AllPairs(n) == PairsBefore(n, n - 1)
  {
    assert Row(n, n - 1) == [];
  }

  /** The inner loop visits row i one pair at a time. */
  lemma RowPrefixStep(n: nat, i: nat, j: nat)
    requires i < j < n
    ensures Row(n, i)[..j - i - 1] + [(i, j)] == Row(n, i)[..j - i]
  {
  }

  /** Row i + 1 starts once row i has been visited up to (i, j) and past it. */
  lemma RowSplit(n: nat, i: nat, j: nat)
    requires i < j < n
    ensures PairsBefore(n, i + 1) == (PairsBefore(n, i) + Row(n, i)[..j - i - 1]) + ([(i, j)] + Row(n, i)[j - i..])
  {
    var r := Row(n, i);
    assert r == r[..j - i - 1] + ([(i, j)] + r[j - i..]);
  }
}
