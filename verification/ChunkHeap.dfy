/** The min-heap in which chunks wait for the ones before them, against a sorted list. */
module ChunkHeap {
  import opened Fragments

  // --------------------------------------------------------- the sorted list

  predicate Ascending(cs: seq<Chunk>) {
    forall i, j :: 0 <= i < j < |cs| ==> cs[i].seqNum < cs[j].seqNum
  }

  predicate NonDescending(cs: seq<Chunk>) {
    forall i, j :: 0 <= i < j < |cs| ==> cs[i].seqNum <= cs[j].seqNum
  }

  predicate HasNumber(cs: seq<Chunk>, n: nat) {
    exists i :: 0 <= i < |cs| && cs[i].seqNum == n
  }

  function Inserted(cs: seq<Chunk>, c: Chunk): seq<Chunk> {
    if cs == [] then [c]
    else if c.seqNum < cs[0].seqNum then [c] + cs
    else [cs[0]] + Inserted(cs[1..], c)
  }

  function Sorted(cs: seq<Chunk>): seq<Chunk> {
    if cs == [] then [] else Inserted(Sorted(cs[1..]), cs[0])
  }

  lemma {:induction false} InsertedMultiset(cs: seq<Chunk>, c: Chunk)
    ensures multiset(Inserted(cs, c)) == multiset(cs) + multiset{c}
  {
    if cs != [] && c.seqNum >= cs[0].seqNum {
      assert cs == [cs[0]] + cs[1..];
      InsertedMultiset(cs[1..], c);
    }
  }

  lemma {:induction false} SortedMultiset(cs: seq<Chunk>)
    ensures multiset(Sorted(cs)) == multiset(cs)
  {
    if cs != [] {
      assert cs == [cs[0]] + cs[1..];
      SortedMultiset(cs[1..]);
      InsertedMultiset(Sorted(cs[1..]), cs[0]);
    }
  }

  lemma SameChunks(a: seq<Chunk>, b: seq<Chunk>)
    requires multiset(a) == multiset(b)
    ensures |a| == |b| && forall c :: c in a <==> c in b
    ensures forall n :: HasNumber(a, n) <==> HasNumber(b, n)
  {
    assert |multiset(a)| == |multiset(b)|;
    forall c: Chunk
      ensures c in a <==> c in b
    {
      assert c in a <==> c in multiset(a);
      assert c in b <==> c in multiset(b);
    }
    forall n: nat
      ensures HasNumber(a, n) <==> HasNumber(b, n)
    {
      if HasNumber(a, n) {
        var i :| 0 <= i < |a| && a[i].seqNum == n;
        assert a[i] in b;
      }
      if HasNumber(b, n) {
        var i :| 0 <= i < |b| && b[i].seqNum == n;
        assert b[i] in a;
      }
    }
  }

  lemma InsertedElements(cs: seq<Chunk>, c: Chunk)
    ensures forall x :: x in Inserted(cs, c) <==> x == c || x in cs
  {
    InsertedMultiset(cs, c);
    forall x: Chunk
      ensures x in Inserted(cs, c) <==> x == c || x in cs
    {
      assert x in Inserted(cs, c) <==> x in multiset(Inserted(cs, c));
      assert x in cs <==> x in multiset(cs);
    }
  }

  lemma {:induction false} InsertedNonDescending(cs: seq<Chunk>, c: Chunk)
    requires NonDescending(cs)
    ensures NonDescending(Inserted(cs, c))
  {
    if cs != [] && c.seqNum >= cs[0].seqNum {
      InsertedNonDescending(cs[1..], c);
      InsertedElements(cs[1..], c);
      NonDescendingCons(cs[0], Inserted(cs[1..], c));
    }
  }

  lemma NonDescendingCons(c: Chunk, cs: seq<Chunk>)
    requires NonDescending(cs) && forall x :: x in cs ==> c.seqNum <= x.seqNum
    ensures NonDescending([c] + cs)
  {
  }

  lemma AscendingCons(c: Chunk, cs: seq<Chunk>)
    requires Ascending(cs) && forall x :: x in cs ==> c.seqNum < x.seqNum
    ensures Ascending([c] + cs)
  {
  }

  lemma {:induction false} InsertedAscending(cs: seq<Chunk>, c: Chunk)
    requires Ascending(cs) && !HasNumber(cs, c.seqNum)
    ensures Ascending(Inserted(cs, c))
  {
    if cs != [] {
      assert cs[0].seqNum != c.seqNum;
      if c.seqNum > cs[0].seqNum {
        var tail := cs[1..];
        assert forall i :: 0 <= i < |tail| ==> tail[i] == cs[i + 1];
        InsertedAscending(tail, c);
        InsertedElements(tail, c);
        AscendingCons(cs[0], Inserted(tail, c));
      } else {
        AscendingCons(c, cs);
      }
    }
  }

  lemma {:induction false} SortedAscending(cs: seq<Chunk>)
    ensures NonDescending(Sorted(cs))
  {
    if cs != [] {
      SortedAscending(cs[1..]);
      InsertedNonDescending(Sorted(cs[1..]), cs[0]);
    }
  }

  /** An ascending list is determined by which chunks it holds. */
  lemma {:induction false} AscendingUnique(a: seq<Chunk>, b: seq<Chunk>)
    requires NonDescending(a) && Ascending(b) && multiset(a) == multiset(b)
    ensures a == b
    decreases |a|
  {
    hide NonDescending, Ascending;
    SameChunks(a, b);
    if a == [] || b == [] {
      assert |multiset(a)| == |a| && |multiset(b)| == |b|;
    } else {
      LeastAgrees(a, b);
      MultisetTail(a);
      MultisetTail(b);
      TailsOrdered(a, b);
      AscendingUnique(a[1..], b[1..]);
      assert a == [a[0]] + a[1..] && b == [b[0]] + b[1..];
    }
  }

  lemma TailsOrdered(a: seq<Chunk>, b: seq<Chunk>)
    requires NonDescending(a) && Ascending(b) && a != [] && b != []
    ensures NonDescending(a[1..]) && Ascending(b[1..])
  {
  }

  lemma LeastAgrees(a: seq<Chunk>, b: seq<Chunk>)
    requires NonDescending(a) && Ascending(b) && a != [] && b != []
    requires forall c :: c in a <==> c in b
    ensures a[0] == b[0]
  {
    assert a[0] in b && b[0] in a;
  }

  lemma MultisetTail(cs: seq<Chunk>)
    requires cs != []
    ensures multiset(cs[1..]) == multiset(cs) - multiset{cs[0]}
  {
    assert cs == [cs[0]] + cs[1..];
  }

  /** What a push does to the sorted view, whatever the array order of the heap. */
  lemma PushSorted(before: seq<Chunk>, after: seq<Chunk>, c: Chunk)
    requires Ascending(Sorted(before)) && !HasNumber(Sorted(before), c.seqNum)
    requires multiset(after) == multiset(before) + multiset{c}
    ensures Sorted(after) == Inserted(Sorted(before), c)
    ensures Ascending(Sorted(after))
  {
    InsertedAscending(Sorted(before), c);
    InsertedMultiset(Sorted(before), c);
    SortedMultiset(before);
    SortedMultiset(after);
    SortedAscending(after);
    AscendingUnique(Sorted(after), Inserted(Sorted(before), c));
  }

  /** Popping the least chunk takes the first element of the sorted view. */
  lemma PopSorted(before: seq<Chunk>, after: seq<Chunk>, c: Chunk)
    requires Ascending(Sorted(before))
    requires multiset(after) + multiset{c} == multiset(before)
    requires forall i :: 0 <= i < |before| ==> c.seqNum <= before[i].seqNum
    ensures Sorted(before) == [c] + Sorted(after)
  {
    SortedAscending(after);
    SortedMultiset(before);
    SortedMultiset(after);
    LowerBound(before, Sorted(after), c);
    LeastFirst(Sorted(before), Sorted(after), c);
  }

  lemma SameSorted(a: seq<Chunk>, b: seq<Chunk>)
    requires multiset(a) == multiset(b) && Ascending(Sorted(b))
    ensures Sorted(a) == Sorted(b)
  {
    SortedMultiset(a);
    SortedMultiset(b);
    SortedAscending(a);
    AscendingUnique(Sorted(a), Sorted(b));
  }

  lemma LeastFirst(whole: seq<Chunk>, rest: seq<Chunk>, c: Chunk)
    requires Ascending(whole) && NonDescending(rest)
    requires multiset(rest) + multiset{c} == multiset(whole)
    requires forall x :: x in rest ==> c.seqNum <= x.seqNum
    ensures whole == [c] + rest
  {
    NonDescendingCons(c, rest);
    AscendingUnique([c] + rest, whole);
  }

  lemma LowerBound(before: seq<Chunk>, after: seq<Chunk>, c: Chunk)
    requires multiset(after) + multiset{c} == multiset(before)
    requires forall i :: 0 <= i < |before| ==> c.seqNum <= before[i].seqNum
    ensures forall x :: x in after ==> c.seqNum <= x.seqNum
  {
    forall x | x in after
      ensures c.seqNum <= x.seqNum
    {
      assert x in multiset(after);
      assert x in multiset(before);
    }
  }

  // ----------------------------------------------------------------- the heap

  function Parent(k: nat): nat
    requires k > 0
  {
    (k - 1) / 2
  }

  /** Slot k does not come before its parent. */
  predicate Edge(cs: seq<Chunk>, k: nat)
    requires 0 < k < |cs|
  {
    cs[Parent(k)].seqNum <= cs[k].seqNum
  }

  predicate HeapOrdered(cs: seq<Chunk>) {
    forall k :: 0 < k < |cs| ==> Edge(cs, k)
  }

  lemma {:induction false} RootIsLeast(cs: seq<Chunk>, i: nat)
    requires HeapOrdered(cs) && i < |cs|
    ensures cs[0].seqNum <= cs[i].seqNum
  {
    if i > 0 {
      assert Edge(cs, i);
      RootIsLeast(cs, Parent(i));
    }
  }

  /** Inside the first n slots every edge holds, except those below slot i. */
  predicate OrderedExceptBelow(cs: seq<Chunk>, n: nat, i: nat)
    requires n <= |cs|
  {
    && (forall k :: 0 < k < n && Parent(k) != i ==> Edge(cs, k))
    && (forall k :: 0 < i && 0 < k < n && Parent(k) == i ==> cs[Parent(i)].seqNum <= cs[k].seqNum)
  }

  /** Every edge holds, except the one above slot j. */
  predicate OrderedExceptAbove(cs: seq<Chunk>, j: nat) {
    && (forall k :: 0 < k < |cs| && k != j ==> Edge(cs, k))
    && (forall k :: 0 < j && 0 < k < |cs| && Parent(k) == j ==> cs[Parent(j)].seqNum <= cs[k].seqNum)
  }

  function Swapped(cs: seq<Chunk>, i: nat, j: nat): (out: seq<Chunk>)
    requires i < |cs| && j < |cs|
    ensures |out| == |cs| && multiset(out) == multiset(cs)
  {
    cs[i := cs[j]][j := cs[i]]
  }

  lemma SmallerChild(cs: seq<Chunk>, n: nat, i: nat, j: nat)
    requires n <= |cs| && 2 * i + 1 <= j <= 2 * i + 2 && j < n
    requires 2 * i + 2 < n && cs[2 * i + 2].seqNum < cs[2 * i + 1].seqNum <==> j == 2 * i + 2
    ensures Parent(j) == i
    ensures forall k :: 0 < k < n && Parent(k) == i ==> cs[j].seqNum <= cs[k].seqNum
  {
  }

  lemma UpStep(cs: seq<Chunk>, j: nat)
    requires 0 < j < |cs| && OrderedExceptAbove(cs, j) && cs[j].seqNum < cs[Parent(j)].seqNum
    ensures OrderedExceptAbove(Swapped(cs, Parent(j), j), Parent(j))
  {
    var i := Parent(j);
    var out := Swapped(cs, i, j);
    forall k | 0 < k < |out|
      ensures k != i ==> Edge(out, k)
      ensures 0 < i && Parent(k) == i ==> out[Parent(i)].seqNum <= out[k].seqNum
    {
      assert k != j ==> Edge(cs, k);
      assert 0 < i ==> Edge(cs, i);
    }
  }

  lemma DownStep(cs: seq<Chunk>, n: nat, i: nat, j: nat)
    requires n <= |cs| && OrderedExceptBelow(cs, n, i)
    requires 0 < j < n && Parent(j) == i && cs[j].seqNum < cs[i].seqNum
    requires forall k :: 0 < k < n && Parent(k) == i ==> cs[j].seqNum <= cs[k].seqNum
    ensures OrderedExceptBelow(Swapped(cs, i, j), n, j)
  {
    var out := Swapped(cs, i, j);
    forall k | 0 < k < n
      ensures Parent(k) != j ==> Edge(out, k)
      ensures Parent(k) == j ==> out[Parent(j)].seqNum <= out[k].seqNum
    {
      assert Parent(k) != i ==> Edge(cs, k);
    }
  }

  lemma DownDone(cs: seq<Chunk>, n: nat, i: nat)
    requires n <= |cs| && i < |cs| && OrderedExceptBelow(cs, n, i)
    requires forall k :: 0 < k < n && Parent(k) == i ==> cs[i].seqNum <= cs[k].seqNum
    ensures HeapOrdered(cs[..n])
  {
    forall k | 0 < k < n
      ensures Edge(cs[..n], k)
    {
      assert Parent(k) != i ==> Edge(cs, k);
    }
  }

  class DataChunkHeap {
    var chunks: seq<Chunk>

    constructor ()
      ensures chunks == []
    {
      chunks := [];
    }

    predicate Less(i: nat, j: nat)
      requires i < |chunks| && j < |chunks|
      reads this
    {
      chunks[i].seqNum < chunks[j].seqNum
    }

    method Swap(i: nat, j: nat)
      requires i < |chunks| && j < |chunks|
      modifies this
      ensures chunks == Swapped(old(chunks), i, j)
    {
      var temp := chunks[i];
      chunks := chunks[i := chunks[j]];
      chunks := chunks[j := temp];
    }

    method Up(start: nat)
      requires start < |chunks| && OrderedExceptAbove(chunks, start)
      modifies this
      ensures HeapOrdered(chunks) && multiset(chunks) == multiset(old(chunks))
    {
      var j: nat := start;
      while true
        invariant j < |chunks| && OrderedExceptAbove(chunks, j)
        invariant multiset(chunks) == multiset(old(chunks))
        decreases j
      {
        var i: nat := if j == 0 then 0 else (j - 1) / 2;
        if i == j || !Less(j, i) {
          break;
        }
        UpStep(chunks, j);
        Swap(i, j);
        j := i;
      }
    }

    method Down(n: nat)
      requires |chunks| == n + 1 && OrderedExceptBelow(chunks, n, 0)
      modifies this
      ensures |chunks| == n + 1 && chunks[n] == old(chunks)[n]
      ensures HeapOrdered(chunks[..n]) && multiset(chunks) == multiset(old(chunks))
    {
      hide OrderedExceptBelow, HeapOrdered;
      var i: nat := 0;
      while 2 * i + 1 < n
        invariant i <= n && |chunks| == n + 1 && chunks[n] == old(chunks)[n]
        invariant OrderedExceptBelow(chunks, n, i)
        invariant multiset(chunks) == multiset(old(chunks))
        decreases n - i
      {
        var j: nat := 2 * i + 1;
        if j + 1 < n && Less(j + 1, j) {
          j := j + 1;
        }
        SmallerChild(chunks, n, i, j);
        if !Less(j, i) {
          break;
        }
        DownStep(chunks, n, i, j);
        Swap(i, j);
        i := j;
      }
      DownDone(chunks, n, i);
    }

    method Push(c: Chunk)
      requires HeapOrdered(chunks)
      modifies this
      ensures HeapOrdered(chunks) && multiset(chunks) == multiset(old(chunks)) + multiset{c}
    {
      chunks := chunks + [c];
      assert forall k :: 0 < k < |old(chunks)| ==> (Edge(old(chunks), k) ==> Edge(chunks, k));
      Up(|chunks| - 1);
    }

    method Pop() returns (c: Chunk)
      requires HeapOrdered(chunks) && chunks != []
      modifies this
      ensures HeapOrdered(chunks)
      ensures multiset(chunks) + multiset{c} == multiset(old(chunks))
      ensures forall i :: 0 <= i < |old(chunks)| ==> c.seqNum <= old(chunks)[i].seqNum
    {
      forall i | 0 <= i < |chunks|
        ensures chunks[0].seqNum <= chunks[i].seqNum
      {
        RootIsLeast(chunks, i);
      }
      var n := |chunks| - 1;
      Swap(0, n);
      assert forall k :: 0 < k < n && Parent(k) != 0 ==> (Edge(old(chunks), k) ==> Edge(chunks, k));
      Down(n);
      c := chunks[n];
      assert chunks == chunks[..n] + [c];
      chunks := chunks[..n];
    }
  }
}
