/**
 * The block-number index: a dictionary from byte-array keys (addresses and
 * topic hashes) to the block numbers they occur in, and `Match`, which
 * intersects the block numbers of an address filter and of topic groups.
 * The succinct Elias-Fano list a key maps to is represented by the sequence
 * of numbers its enumerator yields.
 */
module EliasFano {
  import opened Wrappers
  import opened ByteSeq

  /** C#'s `ulong` and `long`. */
  type ulong = n: int | 0 <= n < 0x1_0000_0000_0000_0000
  type long = n: int | -0x8000_0000_0000_0000 <= n < 0x8000_0000_0000_0000

  const LongMax: long := 0x7FFF_FFFF_FFFF_FFFF

  /** The unchecked conversion `(long)t`: values from 2^63 up wrap to negatives. */
  function ToLong(t: ulong): (r: long)
    ensures r == t || r == t - 0x1_0000_0000_0000_0000
    ensures 0 <= r ==> r == t
  {
    if t < 0x8000_0000_0000_0000 then t else t - 0x1_0000_0000_0000_0000
  }

  /** Non-decreasing order, what `List<ulong>.Sort` produces. */
  ghost predicate Sorted(s: seq<ulong>)
  {
    forall i, j :: 0 <= i < j < |s| ==> s[i] <= s[j]
  }

  /** Strictly increasing order, what `SortedSet<long>.ToList` produces. */
  ghost predicate Increasing(s: seq<long>)
  {
    forall i, j :: 0 <= i < j < |s| ==> s[i] < s[j]
  }

  /** `x` placed before the first element of `s` that is larger. */
  function InsertSorted(s: seq<ulong>, x: ulong): (r: seq<ulong>)
    ensures multiset(r) == multiset(s) + multiset{x}
    decreases |s|
  {
    if s == [] || x <= s[0] then [x] + s
    else
      assert s == [s[0]] + s[1..];
      [s[0]] + InsertSorted(s[1..], x)
  }

  lemma {:induction false} InsertSortedSorted(s: seq<ulong>, x: ulong)
    requires Sorted(s)
    ensures Sorted(InsertSorted(s, x))
    ensures InsertSorted(s, x)[0] == if s == [] || x <= s[0] then x else s[0]
    decreases |s|
  {
    if s == [] || x <= s[0] {
      SortedCons(x, s);
    } else {
      InsertSortedSorted(s[1..], x);
      SortedCons(s[0], InsertSorted(s[1..], x));
    }
  }

  lemma {:induction false} SortedCons(a: ulong, r: seq<ulong>)
    requires Sorted(r) && (r != [] ==> a <= r[0])
    ensures Sorted([a] + r)
  {
    forall i, j | 0 <= i < j < |r| + 1
      ensures ([a] + r)[i] <= ([a] + r)[j]
    {
      if i == 0 && j > 1 {
        assert r[0] <= r[j - 1];
      }
    }
  }

  /** `List<ulong>.Sort`: the same numbers, duplicates kept, in non-decreasing order. */
  function Sort(s: seq<ulong>): (r: seq<ulong>)
    ensures multiset(r) == multiset(s)
  {
    if s == [] then []
    else
      assert s == s[..|s| - 1] + [s[|s| - 1]];
      InsertSorted(Sort(s[..|s| - 1]), s[|s| - 1])
  }

  lemma {:induction false} SortSorted(s: seq<ulong>)
    ensures Sorted(Sort(s))
  {
    if s != [] {
      SortSorted(s[..|s| - 1]);
      InsertSortedSorted(Sort(s[..|s| - 1]), s[|s| - 1]);
    }
  }

  /** A sorted sequence is determined by its elements: `Sort` is the only sorted permutation. */
  lemma {:induction false} SortedUnique(a: seq<ulong>, b: seq<ulong>)
    requires Sorted(a) && Sorted(b) && multiset(a) == multiset(b)
    ensures a == b
    decreases |a|
  {
    if a != [] {
      SortedSameHead(a, b);
      SortedUnique(a[1..], b[1..]);
      assert a == [a[0]] + a[1..] && b == [b[0]] + b[1..];
    }
  }

  lemma {:induction false} SortedSameHead(a: seq<ulong>, b: seq<ulong>)
    requires Sorted(a) && Sorted(b) && multiset(a) == multiset(b) && a != []
    ensures b != [] && a[0] == b[0] && Sorted(a[1..]) && Sorted(b[1..])
    ensures multiset(a[1..]) == multiset(b[1..])
  {
    assert |b| == |multiset(b)| == |multiset(a)| == |a|;
    assert a[0] in multiset(b) && b[0] in multiset(a);
    SortedHeadIsLeast(a, b[0]);
    SortedHeadIsLeast(b, a[0]);
    MultisetTail(a);
    MultisetTail(b);
    SortedTail(a);
    SortedTail(b);
  }

  lemma {:induction false} MultisetTail(a: seq<ulong>)
    requires a != []
    ensures multiset(a[1..]) == multiset(a) - multiset{a[0]}
  {
    assert a == [a[0]] + a[1..];
  }

  lemma {:induction false} SortedTail(a: seq<ulong>)
    requires a != [] && Sorted(a)
    ensures Sorted(a[1..])
  {
    forall i, j | 0 <= i < j < |a| - 1
      ensures a[1..][i] <= a[1..][j]
    {
      assert a[i + 1] <= a[j + 1];
    }
  }

  lemma {:induction false} SortedHeadIsLeast(a: seq<ulong>, x: ulong)
    requires Sorted(a) && x in multiset(a)
    ensures a[0] <= x
  {
    var n :| 0 <= n < |a| && a[n] == x;
    if n > 0 {
      assert a[0] <= a[n];
    }
  }

  /** `ByteArrayComparer.Equals`: same length, then a byte-by-byte comparison. */
  method KeysEqual(x: seq<byte>, y: seq<byte>) returns (r: bool)
    ensures r <==> x == y
  {
    if |x| != |y| {
      return false;
    }
    var i := 0;
    while i < |x|
      invariant 0 <= i <= |x|
      invariant x[..i] == y[..i]
    {
      if x[i] != y[i] {
        return false;
      }
      i := i + 1;
    }
    assert x == x[..i] && y == y[..i];
    return true;
  }

  /** Whether `v` passes the range filter: it applies only when both bounds are given. */
  predicate InRange(v: long, startBlock: long, endBlock: long, bounded: bool)
  {
    !bounded || (startBlock <= v && v <= endBlock)
  }

  /** `SortedSet<long>.Add`: inserts `x` in order unless it is already there. */
  function AddToSet(s: seq<long>, x: long): (r: seq<long>)
    requires Increasing(s)
    ensures Increasing(r)
    ensures forall v :: v in r <==> v in s || v == x
    decreases |s|
  {
    if s == [] || x < s[0] then [x] + s
    else if x == s[0] then s
    else
      var rest := AddToSet(s[1..], x);
      assert forall k :: 0 <= k < |rest| ==> s[0] < rest[k] by {
        forall k | 0 <= k < |rest|
          ensures s[0] < rest[k]
        {
          assert rest[k] in rest;
          if rest[k] != x {
            var n :| 0 <= n < |s[1..]| && s[1..][n] == rest[k];
            assert s[n + 1] == rest[k];
          }
        }
      }
      [s[0]] + rest
  }

  /** The state `Match` steps its indices through: one strictly increasing list per filter. */
  ghost predicate Lists(lists: seq<seq<long>>)
  {
    |lists| >= 1 && forall i :: 0 <= i < |lists| ==> Increasing(lists[i])
  }

  /** The current number of a list, or `-1` once the list is exhausted. */
  function Head(list: seq<long>, index: int): long
  {
    if 0 <= index < |list| then list[index] else -1
  }

  /** `v` occurs in every list. */
  ghost predicate InAll(lists: seq<seq<long>>, v: long)
  {
    forall i :: 0 <= i < |lists| ==> v in lists[i]
  }

  /** The numbers a list holds that `Match` can tell from its sentinels. */
  ghost predicate NoSentinels(lists: seq<seq<long>>)
  {
    forall i :: 0 <= i < |lists| ==> -1 !in lists[i] && LongMax !in lists[i]
  }

  /**
   * Every number already passed in some list is below every number still
   * ahead in any list.
   */
  ghost predicate Frontier(lists: seq<seq<long>>, indices: seq<int>)
  {
    |indices| == |lists|
    && (forall i :: 0 <= i < |lists| ==> 0 <= indices[i] <= |lists[i]|)
    && forall i, j, a, b :: 0 <= i < |lists| && 0 <= j < |lists| && 0 <= a < indices[i] && indices[j] <= b < |lists[j]|
                            ==> lists[i][a] < lists[j][b]
  }

  /** Every index points into its list or just past its end. */
  ghost predicate Positions(lists: seq<seq<long>>, indices: seq<int>)
  {
    |indices| == |lists| && forall i :: 0 <= i < |lists| ==> 0 <= indices[i] <= |lists[i]|
  }

  /** Every number of `result` is in every list. */
  ghost predicate Sound(lists: seq<seq<long>>, result: seq<long>)
  {
    forall v :: v in result ==> InAll(lists, v)
  }

  /** The current number of every list. */
  ghost function HeadsOf(lists: seq<seq<long>>, indices: seq<int>): (heads: seq<long>)
    requires |indices| == |lists|
    ensures |heads| == |lists| && forall i :: 0 <= i < |lists| ==> heads[i] == Head(lists[i], indices[i])
  {
    seq(|lists|, i requires 0 <= i < |lists| => Head(lists[i], indices[i]))
  }

  /** A number every list is at is in every list; the first list is then not empty. */
  lemma {:induction false} AllAtIsInAll(lists: seq<seq<long>>, indices: seq<int>, m: long)
    requires |lists| >= 1 && |indices| == |lists| && m != -1
    requires forall i :: 0 <= i < |lists| ==> Head(lists[i], indices[i]) == m
    ensures InAll(lists, m) && lists[0] != []
  {
    forall i | 0 <= i < |lists|
      ensures m in lists[i]
    {
      assert Head(lists[i], indices[i]) == m;
    }
  }

  /** When no list has a current number other than a sentinel, every list is used up. */
  lemma {:induction false} Exhausted(lists: seq<seq<long>>, indices: seq<int>)
    requires |indices| == |lists| && NoSentinels(lists)
    requires forall i :: 0 <= i < |lists| ==> 0 <= indices[i] <= |lists[i]|
    requires IsMinBlock(HeadsOf(lists, indices), LongMax)
    ensures forall i :: 0 <= i < |lists| ==> indices[i] == |lists[i]|
  {
    var heads := HeadsOf(lists, indices);
    forall i | 0 <= i < |lists|
      ensures indices[i] == |lists[i]|
    {
      assert heads[i] == Head(lists[i], indices[i]);
      HeadIn(lists[i], indices[i]);
    }
  }

  lemma HeadIn(list: seq<long>, index: int)
    requires 0 <= index
    ensures index < |list| ==> Head(list, index) in list
  {
  }

  /** The smallest head that is not `-1`, or `long.MaxValue` when there is none below it. */
  ghost predicate IsMinBlock(blocks: seq<long>, m: long)
  {
    (m == LongMax && forall i :: 0 <= i < |blocks| ==> blocks[i] == -1 || blocks[i] == LongMax)
    || (m != LongMax && (exists i :: 0 <= i < |blocks| && blocks[i] == m && m != -1)
        && forall i :: 0 <= i < |blocks| && blocks[i] != -1 ==> m <= blocks[i])
  }

  /** The sum of what is left of the lists past their indices. */
  ghost function Remaining(lists: seq<seq<long>>, indices: seq<int>): nat
    requires |indices| == |lists|
  {
    if lists == [] then 0
    else
      var rest := Remaining(lists[1..], indices[1..]);
      if indices[0] < |lists[0]| then rest + |lists[0]| - (if indices[0] < 0 then 0 else indices[0]) else rest
  }

  /** Advancing the indices whose head is `m` leaves less to do, when one of them is. */
  lemma {:induction false} RemainingAdvance(lists: seq<seq<long>>, indices: seq<int>, next: seq<int>, m: long)
    requires |indices| == |lists| == |next| && m != -1
    requires forall i :: 0 <= i < |lists| ==> 0 <= indices[i] <= |lists[i]|
    requires forall i :: 0 <= i < |lists| ==> next[i] == indices[i] + (if Head(lists[i], indices[i]) == m then 1 else 0)
    ensures Remaining(lists, next) <= Remaining(lists, indices)
    ensures (exists i :: 0 <= i < |lists| && Head(lists[i], indices[i]) == m) ==> Remaining(lists, next) < Remaining(lists, indices)
  {
    if lists != [] {
      RemainingAdvance(lists[1..], indices[1..], next[1..], m);
      if exists i :: 0 <= i < |lists| && Head(lists[i], indices[i]) == m {
        var i :| 0 <= i < |lists| && Head(lists[i], indices[i]) == m;
        if i > 0 {
          assert Head(lists[1..][i - 1], indices[1..][i - 1]) == m;
        }
      }
    }
  }

  /**
   * The minimum head `m` is the head of some list `k`, and every number still
   * ahead in any list is at least `m`.
   */
  lemma {:induction false} MinHeadBounds(lists: seq<seq<long>>, indices: seq<int>, m: long) returns (k: int)
    requires Lists(lists) && NoSentinels(lists) && Frontier(lists, indices)
    requires IsMinBlock(HeadsOf(lists, indices), m) && m != LongMax
    ensures 0 <= k < |lists| && indices[k] < |lists[k]| && lists[k][indices[k]] == m && m != -1
    ensures forall j, b :: 0 <= j < |lists| && indices[j] <= b < |lists[j]| ==> m <= lists[j][b]
  {
    var blocks := HeadsOf(lists, indices);
    k :| 0 <= k < |blocks| && blocks[k] == m && m != -1;
    forall j, b | 0 <= j < |lists| && indices[j] <= b < |lists[j]|
      ensures m <= lists[j][b]
    {
      assert lists[j][indices[j]] in lists[j];
      assert blocks[j] == lists[j][indices[j]] != -1;
      assert m <= lists[j][indices[j]] <= lists[j][b];
    }
  }

  /** Moving the lists at the minimum past it keeps the frontier. */
  lemma {:induction false} FrontierAdvance(lists: seq<seq<long>>, indices: seq<int>, next: seq<int>, m: long, k: int)
    requires Lists(lists) && Frontier(lists, indices) && |next| == |lists|
    requires 0 <= k < |lists| && indices[k] < |lists[k]| && lists[k][indices[k]] == m && m != -1
    requires forall j, b :: 0 <= j < |lists| && indices[j] <= b < |lists[j]| ==> m <= lists[j][b]
    requires forall i :: 0 <= i < |lists| ==> next[i] == indices[i] + (if Head(lists[i], indices[i]) == m then 1 else 0)
    ensures Frontier(lists, next)
  {
    forall i, j, a, b | 0 <= i < |lists| && 0 <= j < |lists| && 0 <= a < next[i] && next[j] <= b < |lists[j]|
      ensures lists[i][a] < lists[j][b]
    {
      if b == indices[j] {
        assert Head(lists[j], indices[j]) != m;
        assert m < lists[j][b];
      } else {
        assert lists[j][indices[j]] < lists[j][b];
      }
      if a < indices[i] {
        assert lists[i][a] < lists[k][indices[k]];
      }
    }
  }

  /** The minimum is in every list exactly when every head is at it. */
  lemma {:induction false} SameIffInAll(lists: seq<seq<long>>, indices: seq<int>, m: long, k: int, same: bool)
    requires Lists(lists) && Frontier(lists, indices)
    requires 0 <= k < |lists| && indices[k] < |lists[k]| && lists[k][indices[k]] == m && m != -1
    requires forall j, b :: 0 <= j < |lists| && indices[j] <= b < |lists[j]| ==> m <= lists[j][b]
    requires same <==> forall i :: 0 <= i < |lists| ==> Head(lists[i], indices[i]) == m
    ensures same <==> InAll(lists, m)
  {
    if same {
      forall i | 0 <= i < |lists|
        ensures m in lists[i]
      {
        assert Head(lists[i], indices[i]) == m;
        assert lists[i][indices[i]] == m;
      }
    } else {
      var j :| 0 <= j < |lists| && Head(lists[j], indices[j]) != m;
      forall b | 0 <= b < |lists[j]|
        ensures lists[j][b] != m
      {
        if b < indices[j] {
          assert lists[j][b] < lists[k][indices[k]];
        } else {
          assert lists[j][indices[j]] < lists[j][b] || b == indices[j];
        }
      }
    }
  }

  /**
   * One round of the merge: the indices whose head is the minimum `m` move on,
   * the frontier moves past `m`, and `m` is in every list exactly when every
   * head is `m`.
   */
  lemma {:induction false} MergeStep(lists: seq<seq<long>>, indices: seq<int>, next: seq<int>, m: long, same: bool)
    requires Lists(lists) && NoSentinels(lists) && Frontier(lists, indices)
    requires IsMinBlock(HeadsOf(lists, indices), m) && m != LongMax
    requires |next| == |lists|
    requires forall i :: 0 <= i < |lists| ==> next[i] == indices[i] + (if Head(lists[i], indices[i]) == m then 1 else 0)
    requires same <==> forall i :: 0 <= i < |lists| ==> Head(lists[i], indices[i]) == m
    ensures Frontier(lists, next)
    ensures same <==> InAll(lists, m)
    ensures forall v :: v in lists[0][..next[0]] <==>
                        v in lists[0][..indices[0]] || (v == m && Head(lists[0], indices[0]) == m)
    ensures forall v :: v in lists[0][..indices[0]] ==> v < m
  {
    var k := MinHeadBounds(lists, indices, m);
    FrontierAdvance(lists, indices, next, m, k);
    SameIffInAll(lists, indices, m, k, same);
    forall v | v in lists[0][..indices[0]]
      ensures v < m
    {
      var a :| 0 <= a < indices[0] && lists[0][a] == v;
      assert lists[0][a] < lists[k][indices[k]];
    }
    assert lists[0][..next[0]] == lists[0][..indices[0]] + lists[0][indices[0]..next[0]];
  }

  /** After a round the result is still the common numbers passed in the first list, in increasing order. */
  lemma MergeResult(lists: seq<seq<long>>, indices: seq<int>, next: seq<int>, m: long, same: bool,
                    r0: seq<long>, r1: seq<long>)
    requires |indices| == |next| == |lists| >= 1
    requires 0 <= indices[0] <= next[0] <= |lists[0]|
    requires Increasing(r0)
    requires forall v :: v in r0 <==> InAll(lists, v) && v in lists[0][..indices[0]]
    requires forall v :: v in lists[0][..indices[0]] ==> v < m
    requires same <==> InAll(lists, m)
    requires forall v :: v in lists[0][..next[0]] <==>
                        v in lists[0][..indices[0]] || (v == m && Head(lists[0], indices[0]) == m)
    requires same ==> Head(lists[0], indices[0]) == m
    requires r1 == if same then r0 + [m] else r0
    ensures Increasing(r1)
    ensures forall v :: v in r1 <==> InAll(lists, v) && v in lists[0][..next[0]]
  {
    if same {
      forall i, j | 0 <= i < j < |r1|
        ensures r1[i] < r1[j]
      {
        if j == |r0| {
          assert r0[i] in r0;
        }
      }
    }
  }

  /**
   * The merge invariant: the indices keep a frontier, and the result holds,
   * in increasing order, the numbers in every list that the first list has passed.
   */
  ghost predicate Merged(lists: seq<seq<long>>, indices: seq<int>, result: seq<long>)
    requires |lists| >= 1 && |indices| == |lists| && 0 <= indices[0] <= |lists[0]|
  {
    Frontier(lists, indices) && Increasing(result)
    && forall v :: v in result <==> InAll(lists, v) && v in lists[0][..indices[0]]
  }

  /** A round of the merge keeps the merge invariant. */
  lemma {:induction false} MergeRound(lists: seq<seq<long>>, indices: seq<int>, next: seq<int>, m: long, same: bool,
                                      r0: seq<long>, r1: seq<long>)
    requires Lists(lists) && NoSentinels(lists) && |indices| == |lists|
    requires 0 <= indices[0] <= |lists[0]| && Merged(lists, indices, r0)
    requires IsMinBlock(HeadsOf(lists, indices), m) && m != LongMax
    requires |next| == |lists|
    requires forall i :: 0 <= i < |lists| ==> next[i] == indices[i] + (if Head(lists[i], indices[i]) == m then 1 else 0)
    requires same <==> forall i :: 0 <= i < |lists| ==> Head(lists[i], indices[i]) == m
    requires r1 == if same then r0 + [m] else r0
    ensures 0 <= next[0] <= |lists[0]| && Merged(lists, next, r1)
  {
    MergeStep(lists, indices, next, m, same);
    MergeResult(lists, indices, next, m, same, r0, r1);
  }

  /** A round that found a minimum keeps every loop invariant of `Intersect` and consumes a number. */
  lemma {:induction false} RoundKeeps(lists: seq<seq<long>>, indices: seq<int>, next: seq<int>, m: long, same: bool,
                                      r0: seq<long>, r1: seq<long>)
    requires Lists(lists) && Positions(lists, indices) && Positions(lists, next)
    requires IsMinBlock(HeadsOf(lists, indices), m) && m != LongMax
    requires forall i :: 0 <= i < |lists| ==> next[i] == indices[i] + (if Head(lists[i], indices[i]) == m then 1 else 0)
    requires same <==> forall i :: 0 <= i < |lists| ==> Head(lists[i], indices[i]) == m
    requires r1 == if same then r0 + [m] else r0
    requires Sound(lists, r0) && (lists[0] == [] ==> r0 == [])
    requires NoSentinels(lists) ==> Merged(lists, indices, r0)
    ensures Sound(lists, r1) && (lists[0] == [] ==> r1 == [])
    ensures NoSentinels(lists) ==> Merged(lists, next, r1)
    ensures Remaining(lists, next) < Remaining(lists, indices)
  {
    if same {
      AllAtIsInAll(lists, indices, m);
    }
    RemainingAdvance(lists, indices, next, m);
    if NoSentinels(lists) {
      MergeRound(lists, indices, next, m, same, r0, r1);
    }
  }

  /** The first loop of a round: each list's current number, `-1` past its end. */
  method Heads(lists: seq<seq<long>>, indices: array<int>) returns (blocks: array<long>)
    requires indices.Length == |lists| && forall i :: 0 <= i < indices.Length ==> 0 <= indices[i]
    ensures fresh(blocks) && blocks.Length == |lists|
    ensures forall i :: 0 <= i < |lists| ==> blocks[i] == Head(lists[i], indices[i])
  {
    blocks := new long[|lists|](_ => 0);
    for i := 0 to |lists|
      invariant forall k :: 0 <= k < i ==> blocks[k] == Head(lists[k], indices[k])
    {
      if indices[i] >= |lists[i]| {
        blocks[i] := -1;
      } else {
        blocks[i] := lists[i][indices[i]];
      }
    }
  }

  /** The second loop: the smallest number that is not `-1`, starting from `long.MaxValue`. */
  method MinBlock(blocks: array<long>) returns (minBlock: long)
    ensures IsMinBlock(blocks[..], minBlock)
  {
    minBlock := LongMax;
    for i := 0 to blocks.Length
      invariant IsMinBlock(blocks[..i], minBlock)
    {
      assert blocks[..i + 1] == blocks[..i] + [blocks[i]];
      if blocks[i] != -1 && blocks[i] < minBlock {
        minBlock := blocks[i];
        assert blocks[..i + 1][i] == minBlock;
      }
    }
    assert blocks[..blocks.Length] == blocks[..];
  }

  /** The third loop: whether every list is at `minBlock`, stopping at the first that is not. */
  method AllAt(blocks: array<long>, minBlock: long) returns (sameBlock: bool)
    ensures sameBlock <==> forall i :: 0 <= i < blocks.Length ==> blocks[i] == minBlock
  {
    sameBlock := true;
    var i := 0;
    while i < blocks.Length
      invariant 0 <= i <= blocks.Length
      invariant forall k :: 0 <= k < i ==> blocks[k] == minBlock
    {
      if blocks[i] != minBlock {
        sameBlock := false;
        break;
      }
      i := i + 1;
    }
  }

  /** The fourth loop: the lists at `minBlock` move one number on. */
  method Advance(indices: array<int>, blocks: array<long>, minBlock: long)
    requires indices.Length == blocks.Length
    modifies indices
    ensures forall i :: 0 <= i < indices.Length ==>
              indices[i] == old(indices[i]) + (if blocks[i] == minBlock then 1 else 0)
  {
    for i := 0 to blocks.Length
      invariant forall k :: 0 <= k < i ==> indices[k] == old(indices[k]) + (if blocks[k] == minBlock then 1 else 0)
      invariant forall k :: i <= k < indices.Length ==> indices[k] == old(indices[k])
    {
      if blocks[i] == minBlock {
        indices[i] := indices[i] + 1;
      }
    }
  }

  /**
   * One round of the `while (!done)` loop: the current numbers, their
   * minimum, whether every list is at it, and the lists at it moved on.
   * When no list has a number left the minimum stays `long.MaxValue` and
   * nothing moves.
   */
  method Round(lists: seq<seq<long>>, indices: array<int>) returns (minBlock: long, sameBlock: bool)
    requires indices.Length == |lists| && forall i :: 0 <= i < indices.Length ==> 0 <= indices[i] <= |lists[i]|
    modifies indices
    ensures IsMinBlock(HeadsOf(lists, old(indices[..])), minBlock)
    ensures forall i :: 0 <= i < |lists| ==> 0 <= indices[i] <= |lists[i]|
    ensures minBlock != LongMax ==>
              (sameBlock <==> forall i :: 0 <= i < |lists| ==> Head(lists[i], old(indices[i])) == minBlock)
    ensures minBlock != LongMax ==>
              forall i :: 0 <= i < |lists| ==>
                indices[i] == old(indices[i]) + (if Head(lists[i], old(indices[i])) == minBlock then 1 else 0)
    ensures minBlock == LongMax ==> indices[..] == old(indices[..])
  {
    var blocks := Heads(lists, indices);
    assert blocks[..] == HeadsOf(lists, indices[..]);
    minBlock := MinBlock(blocks);
    sameBlock := false;
    if minBlock != LongMax {
      sameBlock := AllAt(blocks, minBlock);
      Advance(indices, blocks, minBlock);
      forall i | 0 <= i < |lists|
        ensures 0 <= indices[i] <= |lists[i]|
      {
        assert blocks[i] == Head(lists[i], old(indices[i]));
      }
    }
  }

  /**
   * The `while (!done)` merge of `Match`: rounds of finding the smallest
   * current number, recording it when every list is at it, and moving past
   * it, until no list has a number left. Whatever it returns is in every
   * list; when no list holds one of the sentinels `-1` and `long.MaxValue`,
   * it returns exactly the numbers in every list, in increasing order.
   */
  method Intersect(lists: seq<seq<long>>) returns (result: seq<long>)
    requires Lists(lists)
    ensures forall v :: v in result ==> InAll(lists, v)
    ensures NoSentinels(lists) ==> Increasing(result) && forall v :: v in result <==> InAll(lists, v)
    ensures lists[0] == [] ==> result == []
  {
    result := [];
    var indices := new int[|lists|](_ => 0);
    var done := false;
    while !done
      invariant indices.Length == |lists| && Positions(lists, indices[..])
      invariant Sound(lists, result)
      invariant lists[0] == [] ==> result == []
      invariant NoSentinels(lists) ==> Merged(lists, indices[..], result)
      invariant done && NoSentinels(lists) ==> forall i :: 0 <= i < |lists| ==> indices[i] == |lists[i]|
      decreases if done then 0 else 1, Remaining(lists, indices[..])
    {
      ghost var before := indices[..];
      ghost var resultBefore := result;
      var minBlock, sameBlock := Round(lists, indices);
      if minBlock != LongMax {
        if sameBlock {
          result := result + [minBlock];
        }
        RoundKeeps(lists, before, indices[..], minBlock, sameBlock, resultBefore, result);
      } else {
        done := true;
        if NoSentinels(lists) {
          Exhausted(lists, indices[..]);
        }
      }
    }
    if NoSentinels(lists) {
      assert lists[0][..indices[0]] == lists[0];
    }
  }

  class Storage {
    /** `storage`: keys compare by content, so a byte sequence stands for the key array. */
    var storage: map<seq<byte>, seq<ulong>>

    /** Every stored list was built from at least one number. */
    ghost predicate Valid()
      reads this
    {
      forall key :: key in storage ==> storage[key] != []
    }

    constructor ()
      ensures storage == map[] && Valid()
    {
      storage := map[];
    }

    /** `Get`: the numbers stored for `key`, or none for a key that is absent. */
    method Get(key: seq<byte>) returns (r: seq<ulong>)
      ensures key in storage ==> r == storage[key]
      ensures key !in storage ==> r == []
    {
      if key in storage {
        r := storage[key];
      } else {
        r := [];
      }
    }

    /**
     * `Put`: an existing key's numbers with `newVal` added, duplicates kept,
     * sorted; a new key gets just `newVal`.
     */
    method Put(key: seq<byte>, newVal: ulong)
      requires Valid()
      modifies this
      ensures Valid()
      ensures storage == old(storage)[key := if key in old(storage) then Sort(old(storage)[key] + [newVal]) else [newVal]]
      ensures Sorted(storage[key])
      ensures multiset(storage[key]) == (if key in old(storage) then multiset(old(storage)[key]) else multiset{}) + multiset{newVal}
    {
      if key in storage {
        var current := storage[key] + [newVal];
        SortSorted(current);
        storage := storage[key := Sort(current)];
      } else {
        storage := storage[key := [newVal]];
      }
    }

    /**
     * `PutAll`: an existing key gets its numbers and `values` sorted together;
     * a new key gets `values` as given. `values.Max()` throws on an empty list
     * for a new key, which `ok == false` reports with nothing stored.
     */
    method PutAll(key: seq<byte>, values: seq<ulong>) returns (ok: bool)
      requires Valid()
      modifies this
      ensures Valid()
      ensures ok <==> key in old(storage) || values != []
      ensures !ok ==> storage == old(storage)
      ensures ok && key in old(storage) ==> storage == old(storage)[key := Sort(old(storage)[key] + values)]
      ensures ok && key !in old(storage) ==> storage == old(storage)[key := values]
    {
      if key in storage {
        var current := storage[key] + values;
        storage := storage[key := Sort(current)];
        ok := true;
      } else if values == [] {
        ok := false;
      } else {
        storage := storage[key := values];
        ok := true;
      }
    }

    /** `v` is the `long` of a number stored for one of `keys`, within the range when it applies. */
    ghost predicate Selected(keys: seq<seq<byte>>, startBlock: long, endBlock: long, bounded: bool, v: long)
      reads this
    {
      InRange(v, startBlock, endBlock, bounded)
      && exists j, t :: 0 <= j < |keys| && keys[j] in storage && t in storage[keys[j]] && v == ToLong(t)
    }

    /**
     * One group's `SortedSet` filled by the nested `foreach` loops: the
     * numbers of every key's list, converted to `long` and range-filtered.
     */
    method CollectGroup(keys: seq<seq<byte>>, startBlock: long, endBlock: long, bounded: bool) returns (r: seq<long>)
      ensures Collected(r, keys, startBlock, endBlock, bounded)
      ensures keys == [] ==> r == []
    {
      r := [];
      var j := 0;
      while j < |keys|
        invariant 0 <= j <= |keys|
        invariant keys == [] ==> r == []
        invariant Increasing(r)
        invariant forall v :: v in r <==> Selected(keys[..j], startBlock, endBlock, bounded, v)
      {
        var numbers := Get(keys[j]);
        var n := 0;
        while n < |numbers|
          invariant 0 <= n <= |numbers|
          invariant Increasing(r)
          invariant forall v :: v in r <==> (Selected(keys[..j], startBlock, endBlock, bounded, v)
                                             || (InRange(v, startBlock, endBlock, bounded)
                                                 && exists t :: t in numbers[..n] && v == ToLong(t)))
        {
          var tc := ToLong(numbers[n]);
          if InRange(tc, startBlock, endBlock, bounded) {
            r := AddToSet(r, tc);
          }
          assert numbers[..n + 1] == numbers[..n] + [numbers[n]];
          n := n + 1;
        }
        SelectedStep(keys, j, numbers, startBlock, endBlock, bounded);
        j := j + 1;
      }
      assert keys[..j] == keys;
    }

    lemma SelectedStep(keys: seq<seq<byte>>, j: nat, numbers: seq<ulong>, startBlock: long, endBlock: long, bounded: bool)
      requires j < |keys|
      requires keys[j] in storage ==> numbers == storage[keys[j]]
      requires keys[j] !in storage ==> numbers == []
      ensures forall v :: Selected(keys[..j + 1], startBlock, endBlock, bounded, v) <==>
                          Selected(keys[..j], startBlock, endBlock, bounded, v)
                          || (InRange(v, startBlock, endBlock, bounded) && exists t :: t in numbers[..|numbers|] && v == ToLong(t))
    {
      assert numbers[..|numbers|] == numbers;
      forall v | Selected(keys[..j + 1], startBlock, endBlock, bounded, v)
        ensures Selected(keys[..j], startBlock, endBlock, bounded, v) || exists t :: t in numbers && v == ToLong(t)
      {
        var i, t :| 0 <= i < j + 1 && keys[..j + 1][i] in storage && t in storage[keys[..j + 1][i]] && v == ToLong(t);
        if i < j {
          assert keys[..j][i] == keys[..j + 1][i];
        }
      }
      forall v | Selected(keys[..j], startBlock, endBlock, bounded, v)
        ensures Selected(keys[..j + 1], startBlock, endBlock, bounded, v)
      {
        var i, t :| 0 <= i < j && keys[..j][i] in storage && t in storage[keys[..j][i]] && v == ToLong(t);
        assert keys[..j + 1][i] == keys[..j][i];
      }
      forall v | InRange(v, startBlock, endBlock, bounded) && exists t :: t in numbers && v == ToLong(t)
        ensures Selected(keys[..j + 1], startBlock, endBlock, bounded, v)
      {
        var t :| t in numbers && v == ToLong(t);
        assert keys[..j + 1][j] == keys[j];
      }
    }

    /** `list` holds, in increasing order, exactly the numbers the group `keys` selects. */
    ghost predicate Collected(list: seq<long>, keys: seq<seq<byte>>, startBlock: long, endBlock: long, bounded: bool)
      reads this
    {
      Increasing(list) && forall v :: v in list <==> Selected(keys, startBlock, endBlock, bounded, v)
    }

    /** The address filter followed by the topic groups: the lists `Match` intersects, in order. */
    static function Groups(addresses: seq<seq<byte>>, topics: seq<seq<seq<byte>>>): (groups: seq<seq<seq<byte>>>)
      ensures |groups| == |topics| + 1 && groups[0] == addresses
      ensures forall g :: 0 <= g < |topics| ==> groups[g + 1] == topics[g]
    {
      [addresses] + topics
    }

    /** The range filter applies only when both bounds are given. */
    static function Bounded(startBlock: Option<long>, endBlock: Option<long>): bool
    {
      startBlock.Some? && endBlock.Some?
    }

    static function Low(startBlock: Option<long>, endBlock: Option<long>): long
    {
      if Bounded(startBlock, endBlock) then startBlock.value else 0
    }

    static function High(startBlock: Option<long>, endBlock: Option<long>): long
    {
      if Bounded(startBlock, endBlock) then endBlock.value else 0
    }

    /** `v` is selected by every group. */
    ghost predicate SelectedByAll(groups: seq<seq<seq<byte>>>, startBlock: long, endBlock: long, bounded: bool, v: long)
      reads this
    {
      forall g :: 0 <= g < |groups| ==> Selected(groups[g], startBlock, endBlock, bounded, v)
    }

    /** `v` is selected by the address filter and by every topic group. */
    ghost predicate Matches(startBlock: Option<long>, endBlock: Option<long>, addresses: seq<seq<byte>>,
                            topics: seq<seq<seq<byte>>>, v: long)
      reads this
    {
      SelectedByAll(Groups(addresses, topics), Low(startBlock, endBlock), High(startBlock, endBlock),
                    Bounded(startBlock, endBlock), v)
    }

    /** With no topics, `Match` selects by address alone. */
    lemma MatchesAddressesOnly(startBlock: Option<long>, endBlock: Option<long>, addresses: seq<seq<byte>>, v: long)
      ensures Matches(startBlock, endBlock, addresses, [], v) <==>
              Selected(addresses, Low(startBlock, endBlock), High(startBlock, endBlock), Bounded(startBlock, endBlock), v)
    {
    }

    /** Each further topic group can only narrow the match. */
    lemma {:induction false} MatchesNarrowing(startBlock: Option<long>, endBlock: Option<long>, addresses: seq<seq<byte>>,
                                              topics: seq<seq<seq<byte>>>, group: seq<seq<byte>>, v: long)
      ensures Matches(startBlock, endBlock, addresses, topics + [group], v) <==>
              Matches(startBlock, endBlock, addresses, topics, v)
              && Selected(group, Low(startBlock, endBlock), High(startBlock, endBlock), Bounded(startBlock, endBlock), v)
    {
      var low, high, bounded := Low(startBlock, endBlock), High(startBlock, endBlock), Bounded(startBlock, endBlock);
      var groups, wider := Groups(addresses, topics), Groups(addresses, topics + [group]);
      assert wider == groups + [group];
      assert wider[|groups|] == group;
      assert forall g :: 0 <= g < |groups| ==> wider[g] == groups[g];
    }

    /** No group selects one of the numbers the merge uses as sentinels, `-1` and `long.MaxValue`. */
    ghost predicate AvoidsSentinels(startBlock: Option<long>, endBlock: Option<long>, addresses: seq<seq<byte>>,
                                    topics: seq<seq<seq<byte>>>)
      reads this
    {
      var groups := Groups(addresses, topics);
      forall g :: 0 <= g < |groups| ==>
        !Selected(groups[g], Low(startBlock, endBlock), High(startBlock, endBlock), Bounded(startBlock, endBlock), -1)
        && !Selected(groups[g], Low(startBlock, endBlock), High(startBlock, endBlock), Bounded(startBlock, endBlock), LongMax)
    }

    /** Lists collected group by group: a number is in all of them exactly when every group selects it. */
    lemma {:induction false} CollectedLists(lists: seq<seq<long>>, groups: seq<seq<seq<byte>>>,
                                            startBlock: long, endBlock: long, bounded: bool)
      requires |lists| == |groups| && AllCollected(lists, groups, startBlock, endBlock, bounded)
      ensures forall v :: InAll(lists, v) <==> SelectedByAll(groups, startBlock, endBlock, bounded, v)
      ensures (forall g :: 0 <= g < |groups| ==> !Selected(groups[g], startBlock, endBlock, bounded, -1)
                                                 && !Selected(groups[g], startBlock, endBlock, bounded, LongMax))
              ==> NoSentinels(lists)
    {
      forall v
        ensures InAll(lists, v) <==> SelectedByAll(groups, startBlock, endBlock, bounded, v)
      {
        if InAll(lists, v) {
          forall g | 0 <= g < |groups|
            ensures Selected(groups[g], startBlock, endBlock, bounded, v)
          {
            assert v in lists[g] && Collected(lists[g], groups[g], startBlock, endBlock, bounded);
          }
        }
      }
    }

    /**
     * `Match`: the block numbers stored for one of the addresses and, for
     * every topic group, for one of its topics; each within the range when
     * both bounds are given. Everything returned matches; when no group
     * selects a sentinel, exactly the matching numbers come back, in
     * increasing order. No address means no result.
     */
    method Match(startBlock: Option<long>, endBlock: Option<long>, addresses: seq<seq<byte>>,
                 topics: seq<seq<seq<byte>>>) returns (result: seq<long>)
      ensures forall v :: v in result ==> Matches(startBlock, endBlock, addresses, topics, v)
      ensures AvoidsSentinels(startBlock, endBlock, addresses, topics) ==>
                Increasing(result) && forall v :: v in result <==> Matches(startBlock, endBlock, addresses, topics, v)
      ensures addresses == [] ==> result == []
    {
      var bounded := Bounded(startBlock, endBlock);
      var low := Low(startBlock, endBlock);
      var high := High(startBlock, endBlock);
      var lists := CollectGroups(addresses, topics, low, high, bounded);
      result := Intersect(lists);
      CollectedLists(lists, Groups(addresses, topics), low, high, bounded);
      if AvoidsSentinels(startBlock, endBlock, addresses, topics) {
        assert NoSentinels(lists);
      }
    }

    /** The lists `Match` merges: the address filter's numbers, then each topic group's. */
    method CollectGroups(addresses: seq<seq<byte>>, topics: seq<seq<seq<byte>>>,
                         startBlock: long, endBlock: long, bounded: bool) returns (lists: seq<seq<long>>)
      ensures Lists(lists) && |lists| == |topics| + 1
      ensures AllCollected(lists, Groups(addresses, topics), startBlock, endBlock, bounded)
      ensures addresses == [] ==> lists[0] == []
    {
      ghost var groups := Groups(addresses, topics);
      var first := CollectGroup(addresses, startBlock, endBlock, bounded);
      lists := [first];
      assert AllCollected(lists, groups, startBlock, endBlock, bounded);
      var g := 0;
      while g < |topics|
        invariant 0 <= g <= |topics| && |lists| == g + 1 && lists[0] == first
        invariant AllCollected(lists, groups, startBlock, endBlock, bounded)
      {
        var group := CollectGroup(topics[g], startBlock, endBlock, bounded);
        AllCollectedAppend(lists, groups, group, startBlock, endBlock, bounded);
        lists := lists + [group];
        g := g + 1;
      }
      AllCollectedLists(lists, groups, startBlock, endBlock, bounded);
    }

    /** Each list holds exactly what its group selects, in increasing order. */
    ghost predicate AllCollected(lists: seq<seq<long>>, groups: seq<seq<seq<byte>>>,
                                 startBlock: long, endBlock: long, bounded: bool)
      reads this
    {
      |lists| <= |groups| && forall i :: 0 <= i < |lists| ==> Collected(lists[i], groups[i], startBlock, endBlock, bounded)
    }

    lemma {:induction false} AllCollectedAppend(lists: seq<seq<long>>, groups: seq<seq<seq<byte>>>, list: seq<long>,
                                                startBlock: long, endBlock: long, bounded: bool)
      requires AllCollected(lists, groups, startBlock, endBlock, bounded) && |lists| < |groups|
      requires Collected(list, groups[|lists|], startBlock, endBlock, bounded)
      ensures AllCollected(lists + [list], groups, startBlock, endBlock, bounded)
    {
      forall i | 0 <= i < |lists| + 1
        ensures Collected((lists + [list])[i], groups[i], startBlock, endBlock, bounded)
      {
        if i < |lists| {
          assert (lists + [list])[i] == lists[i];
        }
      }
    }

    lemma {:induction false} AllCollectedLists(lists: seq<seq<long>>, groups: seq<seq<seq<byte>>>,
                                               startBlock: long, endBlock: long, bounded: bool)
      requires AllCollected(lists, groups, startBlock, endBlock, bounded) && |lists| >= 1
      ensures Lists(lists)
    {
      forall i | 0 <= i < |lists|
        ensures Increasing(lists[i])
      {
        assert Collected(lists[i], groups[i], startBlock, endBlock, bounded);
      }
    }
  }
}
