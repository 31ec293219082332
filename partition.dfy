/** The index arithmetic of SumPayments, FilterPayments and FilterPaymentsByFn.
    Each splits the n payments among workers: with c = n / goroutines, worker
    i < goroutines - 1 reads [i*c, (i+1)*c) and one last worker reads [k*c, n),
    where k is the number of workers started by the first loop. Each worker's
    partial result is merged under a mutex, in whatever order the workers reach
    it; that order is the `order` argument below, a permutation of worker indices. */
module Partition {
  import opened Types
  import opened Seqs

  /** Go's `/` on a non-negative dividend: the quotient truncated toward zero. */
  function GoDiv(n: nat, d: int): int
    requires d != 0
  {
    if d > 0 then n / d else -(n / -d)
  }

  /** Workers started by `for i = 0; i < goroutines-1; i++`: the final i. */
  function FullBlocks(goroutines: int): nat
  {
    if goroutines > 1 then goroutines - 1 else 0
  }

  /** All workers: the full-size ones and the one that takes the tail. */
  function Workers(goroutines: int): nat
  {
    FullBlocks(goroutines) + 1
  }

  /** `count := len(s.payments) / goroutines`; zero goroutines divides by zero. */
  function ChunkSize(n: nat, goroutines: int): int
    requires goroutines != 0
  {
    GoDiv(n, goroutines)
  }

  lemma MulMono(a: nat, b: nat, c: nat)
    requires a <= b
    ensures a * c <= b * c
  {
    assert b * c == a * c + (b - a) * c;
  }

  /** Every slice bound any worker uses lies in [0, n], low before high: worker i
      starts at i*count, and a full-size worker ends at (i+1)*count. */
  lemma ChunkBounds(n: nat, goroutines: int, i: nat)
    requires goroutines != 0 && i < Workers(goroutines)
    ensures 0 <= i * ChunkSize(n, goroutines) <= n
    ensures i < FullBlocks(goroutines) ==>
      i * ChunkSize(n, goroutines) <= (i + 1) * ChunkSize(n, goroutines) <= n
  {
    var k := FullBlocks(goroutines);
    if k > 0 {
      var g: nat := goroutines;
      var c: nat := n / g;
      assert ChunkSize(n, goroutines) == c;
      assert g * c <= n;
      MulMono(i, i + 1, c);
      if i < k {
        MulMono(i + 1, g, c);
      } else {
        MulMono(i, g, c);
      }
    }
  }

  /** First index read by worker i. */
  function Lo(n: nat, goroutines: int, i: nat): (r: nat)
    requires goroutines != 0 && i < Workers(goroutines)
    ensures r <= n
  {
    ChunkBounds(n, goroutines, i);
    i * ChunkSize(n, goroutines)
  }

  /** One past the last index read by worker i. */
  function Hi(n: nat, goroutines: int, i: nat): (r: nat)
    requires goroutines != 0 && i < Workers(goroutines)
    ensures Lo(n, goroutines, i) <= r <= n
  {
    ChunkBounds(n, goroutines, i);
    if i < FullBlocks(goroutines) then (i + 1) * ChunkSize(n, goroutines) else n
  }

  /** The workers' ranges tile [0, n): the first starts at 0, each ends where the
      next starts, and the last ends at n. */
  lemma BoundsTile(n: nat, goroutines: int)
    requires goroutines != 0
    ensures Lo(n, goroutines, 0) == 0
    ensures forall i :: 0 <= i < FullBlocks(goroutines) ==> Hi(n, goroutines, i) == Lo(n, goroutines, i + 1)
    ensures Hi(n, goroutines, FullBlocks(goroutines)) == n
  {
  }

  /** The payments worker i reads: `s.payments[index*count : (index+1)*count]`,
      or `s.payments[i*count:]` for the last one. */
  function Block<T>(s: seq<T>, goroutines: int, i: nat): seq<T>
    requires goroutines != 0 && i < Workers(goroutines)
  {
    s[Lo(|s|, goroutines, i)..Hi(|s|, goroutines, i)]
  }

  function BlocksFrom<T>(s: seq<T>, goroutines: int, i: nat): seq<seq<T>>
    requires goroutines != 0 && i <= Workers(goroutines)
    decreases Workers(goroutines) - i
  {
    if i == Workers(goroutines) then [] else [Block(s, goroutines, i)] + BlocksFrom(s, goroutines, i + 1)
  }

  /** The blocks of all workers, in worker order. */
  function Blocks<T>(s: seq<T>, goroutines: int): seq<seq<T>>
    requires goroutines != 0
  {
    BlocksFrom(s, goroutines, 0)
  }

  lemma {:induction false} BlocksFromShape<T>(s: seq<T>, goroutines: int, i: nat)
    requires goroutines != 0 && i <= Workers(goroutines)
    ensures |BlocksFrom(s, goroutines, i)| == Workers(goroutines) - i
    ensures forall j :: 0 <= j < |BlocksFrom(s, goroutines, i)| ==> BlocksFrom(s, goroutines, i)[j] == Block(s, goroutines, i + j)
    decreases Workers(goroutines) - i
  {
    if i < Workers(goroutines) {
      BlocksFromShape(s, goroutines, i + 1);
      var rest := BlocksFrom(s, goroutines, i + 1);
      var all := BlocksFrom(s, goroutines, i);
      assert all == [Block(s, goroutines, i)] + rest;
      forall j | 0 <= j < |all| ensures all[j] == Block(s, goroutines, i + j) {
        if j > 0 {
          assert all[j] == rest[j - 1];
        }
      }
    }
  }


  /** There is one block per worker and block i is what worker i reads. */
  lemma BlocksShape<T>(s: seq<T>, goroutines: int)
    requires goroutines != 0
    ensures |Blocks(s, goroutines)| == Workers(goroutines)
    ensures forall i :: 0 <= i < Workers(goroutines) ==> Blocks(s, goroutines)[i] == Block(s, goroutines, i)
  {
    BlocksFromShape(s, goroutines, 0);
  }

  lemma {:induction false} FlattenBlocksFrom<T>(s: seq<T>, goroutines: int, i: nat)
    requires goroutines != 0 && i < Workers(goroutines)
    ensures Flatten(BlocksFrom(s, goroutines, i)) == s[Lo(|s|, goroutines, i)..]
    decreases Workers(goroutines) - i
  {
    var n, lo, hi := |s|, Lo(|s|, goroutines, i), Hi(|s|, goroutines, i);
    var rest := BlocksFrom(s, goroutines, i + 1);
    assert BlocksFrom(s, goroutines, i) == [s[lo..hi]] + rest;
    if i + 1 == Workers(goroutines) {
      assert hi == n;
      assert Flatten(rest) == [];
    } else {
      FlattenBlocksFrom(s, goroutines, i + 1);
      assert hi == Lo(n, goroutines, i + 1);
      assert s[lo..hi] + s[hi..] == s[lo..];
    }
  }

  /** The blocks concatenate, in worker order, to the whole sequence. */
  lemma FlattenBlocks<T>(s: seq<T>, goroutines: int)
    requires goroutines != 0
    ensures Flatten(Blocks(s, goroutines)) == s
  {
    FlattenBlocksFrom(s, goroutines, 0);
  }

  // ---------------------------------------------------------------------------
  // Merging in the order the workers take the mutex

  /** `ps = append(ps, pays...)` for each worker in `order`; an index with no
      worker contributes nothing. */
  function Merge<T>(order: seq<nat>, parts: seq<seq<T>>): seq<T>
  {
    if order == [] then [] else Piece(order[0], parts) + Merge(order[1..], parts)
  }

  function Piece<T>(x: nat, parts: seq<seq<T>>): seq<T>
  {
    if x < |parts| then parts[x] else []
  }

  function Range(lo: nat, hi: nat): seq<nat>
    decreases hi - lo
  {
    if lo >= hi then [] else [lo] + Range(lo + 1, hi)
  }

  /** A scheduling of w workers at the mutex: each worker index exactly once. */
  predicate IsSchedule(order: seq<nat>, w: nat)
  {
    multiset(order) == multiset(Range(0, w))
  }

  lemma {:induction false} RangeBounds(lo: nat, hi: nat)
    ensures |Range(lo, hi)| == if lo <= hi then hi - lo else 0
    ensures forall j :: 0 <= j < |Range(lo, hi)| ==> lo <= Range(lo, hi)[j] < hi
    decreases hi - lo
  {
    if lo < hi {
      RangeBounds(lo + 1, hi);
    }
  }

  /** Every index of a schedule names a worker. */
  lemma ScheduleInRange(order: seq<nat>, w: nat)
    requires IsSchedule(order, w)
    ensures |order| == w
    ensures forall j :: 0 <= j < |order| ==> order[j] < w
  {
    RangeBounds(0, w);
    forall j | 0 <= j < |order| ensures order[j] < w {
      assert order[j] in multiset(Range(0, w));
    }
    assert |order| == |multiset(order)| == |multiset(Range(0, w))| == |Range(0, w)|;
  }

  lemma {:induction false} MergeConcat<T>(a: seq<nat>, b: seq<nat>, parts: seq<seq<T>>)
    ensures Merge(a + b, parts) == Merge(a, parts) + Merge(b, parts)
  {
    if a == [] {
      assert a + b == b;
    } else {
      assert (a + b)[0] == a[0];
      assert (a + b)[1..] == a[1..] + b;
      MergeConcat(a[1..], b, parts);
    }
  }

  /** One more worker taking the mutex appends its piece. */
  lemma MergeSnoc<T>(order: seq<nat>, j: nat, parts: seq<seq<T>>)
    requires j < |order|
    ensures Merge(order[..j + 1], parts) == Merge(order[..j], parts) + Piece(order[j], parts)
  {
    assert order[..j + 1] == order[..j] + [order[j]];
    MergeConcat(order[..j], [order[j]], parts);
    assert Merge([order[j]], parts) == Piece(order[j], parts) by {
      assert [order[j]][1..] == [];
    }
  }

  /** Merging around position k: the piece of order[k] sits between the merges of
      the indices before and after it. */
  lemma MergeAround<T>(order: seq<nat>, k: nat, parts: seq<seq<T>>)
    requires k < |order|
    ensures Merge(order, parts) == Merge(order[..k], parts) + Piece(order[k], parts) + Merge(order[k + 1..], parts)
    ensures Merge(order[..k] + order[k + 1..], parts) == Merge(order[..k], parts) + Merge(order[k + 1..], parts)
  {
    assert order == order[..k] + [order[k]] + order[k + 1..];
    MergeConcat(order[..k] + [order[k]], order[k + 1..], parts);
    MergeConcat(order[..k], [order[k]], parts);
    MergeConcat(order[..k], order[k + 1..], parts);
    assert Merge([order[k]], parts) == Piece(order[k], parts) by {
      assert [order[k]][1..] == [];
    }
  }

  /** Two merge orders that name the same workers the same number of times merge
      the same multiset of elements. */
  lemma {:induction false} MergePermutation<T>(o1: seq<nat>, o2: seq<nat>, parts: seq<seq<T>>)
    requires multiset(o1) == multiset(o2)
    ensures multiset(Merge(o1, parts)) == multiset(Merge(o2, parts))
    decreases |o1|
  {
    if o1 == [] {
      assert |o2| == |multiset(o2)| == 0;
    } else {
      var x := o1[0];
      assert x in multiset(o2);
      var k :| 0 <= k < |o2| && o2[k] == x;
      var rest := o2[..k] + o2[k + 1..];
      RemoveSame(o1, o2, k);
      MergePermutation(o1[1..], rest, parts);
      MergeAround(o2, k, parts);
      var a, b := Merge(o2[..k], parts), Merge(o2[k + 1..], parts);
      calc {
        multiset(Merge(o1, parts));
        multiset(Piece(x, parts)) + multiset(Merge(o1[1..], parts));
        multiset(Piece(x, parts)) + multiset(a + b);
        multiset(a + Piece(x, parts) + b);
      }
    }
  }

  lemma {:induction false} MergeRangeFrom<T>(i: nat, parts: seq<seq<T>>)
    requires i <= |parts|
    ensures Merge(Range(i, |parts|), parts) == Flatten(parts[i..])
    decreases |parts| - i
  {
    if i < |parts| {
      MergeRangeFrom(i + 1, parts);
      assert parts[i..][1..] == parts[i + 1..];
    } else {
      assert parts[i..] == [];
    }
  }

  /** Merging in worker order is plain concatenation; any schedule merges a
      permutation of it. */
  lemma MergeSchedule<T>(order: seq<nat>, parts: seq<seq<T>>)
    requires IsSchedule(order, |parts|)
    ensures Merge(Range(0, |parts|), parts) == Flatten(parts)
    ensures multiset(Merge(order, parts)) == multiset(Flatten(parts))
  {
    MergeRangeFrom(0, parts);
    assert parts[0..] == parts;
    MergePermutation(order, Range(0, |parts|), parts);
  }

  // ---------------------------------------------------------------------------
  // The partitioned sum

  function AmountOf(p: Payment): int { p.amount }

  /** The sequential sum of the amounts. */
  function SumAmounts(payments: seq<Payment>): int
  {
    SumBy(payments, AmountOf)
  }

  /** Each worker's partial sum: the sum of its block. */
  function SumEach(parts: seq<seq<Payment>>): (r: seq<int>)
    ensures |r| == |parts|
    ensures forall i :: 0 <= i < |r| ==> r[i] == SumAmounts(parts[i])
  {
    if parts == [] then [] else [SumAmounts(parts[0])] + SumEach(parts[1..])
  }

  /** Worker i's partial sum is the sum of the slice it reads. */
  lemma SumEachBlock(s: seq<Payment>, goroutines: int, i: nat)
    requires goroutines != 0 && i < Workers(goroutines)
    ensures |SumEach(Blocks(s, goroutines))| == Workers(goroutines)
    ensures SumEach(Blocks(s, goroutines))[i] == SumAmounts(s[Lo(|s|, goroutines, i)..Hi(|s|, goroutines, i)])
  {
    BlocksShape(s, goroutines);
  }

  /** Whatever order the workers add their block sums in, the total is the
      sequential sum of all amounts. */
  lemma ScheduledSumIsTotal(payments: seq<Payment>, goroutines: int, order: seq<nat>)
    requires goroutines != 0
    requires IsSchedule(order, Workers(goroutines))
    ensures SumAmounts(Merge(order, Blocks(payments, goroutines))) == SumAmounts(payments)
  {
    var blocks := Blocks(payments, goroutines);
    BlocksShape(payments, goroutines);
    MergeSchedule(order, blocks);
    FlattenBlocks(payments, goroutines);
    SumByPermutation(Merge(order, blocks), payments, AmountOf);
  }

  // ---------------------------------------------------------------------------
  // The partitioned filter

  /** Each worker's matches: the block filtered, in block order. */
  function FilterEach<T>(parts: seq<seq<T>>, p: T -> bool): (r: seq<seq<T>>)
    ensures |r| == |parts|
    ensures forall i :: 0 <= i < |r| ==> r[i] == Filter(parts[i], p)
  {
    if parts == [] then [] else [Filter(parts[0], p)] + FilterEach(parts[1..], p)
  }

  lemma {:induction false} FlattenFilterEach<T>(parts: seq<seq<T>>, p: T -> bool)
    ensures Flatten(FilterEach(parts, p)) == Filter(Flatten(parts), p)
  {
    if parts != [] {
      FlattenFilterEach(parts[1..], p);
      FilterConcat(parts[0], Flatten(parts[1..]), p);
    }
  }

  /** The matches of every worker, merged in `order`. */
  function ScheduledFilter<T>(s: seq<T>, goroutines: int, p: T -> bool, order: seq<nat>): seq<T>
    requires goroutines != 0
  {
    Merge(order, FilterEach(Blocks(s, goroutines), p))
  }

  /** Worker i's matches are those of the slice it reads. */
  lemma FilterEachBlock<T>(s: seq<T>, goroutines: int, p: T -> bool, i: nat)
    requires goroutines != 0 && i < Workers(goroutines)
    ensures |FilterEach(Blocks(s, goroutines), p)| == Workers(goroutines)
    ensures FilterEach(Blocks(s, goroutines), p)[i] == Filter(s[Lo(|s|, goroutines, i)..Hi(|s|, goroutines, i)], p)
  {
    BlocksShape(s, goroutines);
  }

  /** Whatever order the workers append in, the result holds exactly the matches of
      a sequential scan, each as often; in worker order it is that scan. */
  lemma ScheduledFilterIsPermutation<T>(s: seq<T>, goroutines: int, p: T -> bool, order: seq<nat>)
    requires goroutines != 0
    requires IsSchedule(order, Workers(goroutines))
    ensures multiset(ScheduledFilter(s, goroutines, p, order)) == multiset(Filter(s, p))
    ensures ScheduledFilter(s, goroutines, p, Range(0, Workers(goroutines))) == Filter(s, p)
  {
    var parts := FilterEach(Blocks(s, goroutines), p);
    BlocksShape(s, goroutines);
    MergeSchedule(order, parts);
    FlattenFilterEach(Blocks(s, goroutines), p);
    FlattenBlocks(s, goroutines);
  }
}
