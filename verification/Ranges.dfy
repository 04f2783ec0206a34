/** Ranges of sequence numbers and the queue both endpoints keep them in. */
module Ranges {

  function Min(a: nat, b: nat): nat {
    if a > b then b else a
  }

  function Max(a: nat, b: nat): nat {
    if a > b then a else b
  }

  datatype Range = Range(pos: nat, len: nat) {
    function End(): nat {
      pos + len
    }

    predicate Contains(n: nat) {
      pos <= n < End()
    }
  }

  function MakeRange(pos: nat, end: nat): Range
    requires pos <= end
  {
    Range(pos, end - pos)
  }

  function RangeIntersect(a: Range, b: Range): (r: Range)
    ensures r.len > 0 ==> r.pos == Max(a.pos, b.pos) && r.End() == Min(a.End(), b.End())
    ensures r.len == 0 <==> Min(a.End(), b.End()) <= Max(a.pos, b.pos)
    decreases a.pos > b.pos
  {
    if a.pos <= b.pos then
      if a.End() > b.pos then Range(b.pos, Min(a.End(), b.End()) - b.pos) else Range(0, 0)
    else RangeIntersect(b, a)
  }

  predicate CanRangeMerge(a: Range, b: Range) {
    Max(a.End(), b.End()) - Min(a.pos, b.pos) <= a.len + b.len
  }

  /** The precondition excludes exactly the source's panic branch. */
  function RangeMerge(a: Range, b: Range): (r: Range)
    requires CanRangeMerge(a, b)
    ensures r.pos == Min(a.pos, b.pos) && r.End() == Max(a.End(), b.End())
    ensures forall n: nat :: r.Contains(n) <==> a.Contains(n) || b.Contains(n)
    decreases a.pos > b.pos
  {
    if a.pos <= b.pos then Range(a.pos, Max(a.End(), b.End()) - a.pos) else RangeMerge(b, a)
  }

  /** Two non-empty ranges may merge exactly when no number lies strictly between them. */
  lemma MergeMeansTouching(a: Range, b: Range)
    requires a.len > 0 && b.len > 0
    ensures CanRangeMerge(a, b) <==> a.pos <= b.End() && b.pos <= a.End()
  {
  }

  // ------------------------------------------------- meaning and normal form

  predicate Covers(rs: seq<Range>, n: nat) {
    exists i :: 0 <= i < |rs| && rs[i].Contains(n)
  }

  /** Sorted, no empty range, and a gap of at least one number between neighbours. */
  predicate Normal(rs: seq<Range>) {
    && (forall i :: 0 <= i < |rs| ==> rs[i].len > 0)
    && (forall i, j :: 0 <= i < j < |rs| ==> rs[i].End() < rs[j].pos)
  }

  ghost predicate SameNumbers(a: seq<Range>, b: seq<Range>) {
    forall n: nat :: Covers(a, n) <==> Covers(b, n)
  }

  lemma CoversCons(r: Range, rs: seq<Range>, n: nat)
    ensures Covers([r] + rs, n) <==> r.Contains(n) || Covers(rs, n)
  {
    var s := [r] + rs;
    if r.Contains(n) {
      assert s[0].Contains(n);
    }
    if Covers(rs, n) {
      var i :| 0 <= i < |rs| && rs[i].Contains(n);
      assert s[i + 1].Contains(n);
    }
  }

  lemma CoversConcat(a: seq<Range>, b: seq<Range>, n: nat)
    ensures Covers(a + b, n) <==> Covers(a, n) || Covers(b, n)
  {
    var s := a + b;
    if Covers(a, n) {
      var i :| 0 <= i < |a| && a[i].Contains(n);
      assert s[i].Contains(n);
    }
    if Covers(b, n) {
      var i :| 0 <= i < |b| && b[i].Contains(n);
      assert s[|a| + i].Contains(n);
    }
  }

  lemma NormalTail(rs: seq<Range>)
    requires Normal(rs) && rs != []
    ensures Normal(rs[1..])
    ensures forall n: nat :: Covers(rs, n) <==> rs[0].Contains(n) || Covers(rs[1..], n)
    ensures forall n: nat :: Covers(rs[1..], n) ==> n > rs[0].End()
  {
    forall n: nat
      ensures Covers(rs, n) <==> rs[0].Contains(n) || Covers(rs[1..], n)
    {
      assert rs == [rs[0]] + rs[1..];
      CoversCons(rs[0], rs[1..], n);
    }
  }

  lemma FirstCovered(rs: seq<Range>)
    requires Normal(rs) && rs != []
    ensures Covers(rs, rs[0].pos)
  {
    assert rs[0].Contains(rs[0].pos);
  }

  /** Canonical form: a normal queue is determined by the numbers it covers. */
  lemma {:induction false} CanonicalForm(a: seq<Range>, b: seq<Range>)
    requires Normal(a) && Normal(b)
    ensures SameNumbers(a, b) <==> a == b
  {
    if SameNumbers(a, b) {
      if a == [] || b == [] {
        if a != [] { FirstCovered(a); }
        if b != [] { FirstCovered(b); }
      } else {
        NormalTail(a);
        NormalTail(b);
        HeadsAgree(a, b);
        forall n: nat
          ensures Covers(a[1..], n) <==> Covers(b[1..], n)
        {
          assert Covers(a, n) <==> Covers(b, n);
        }
        CanonicalForm(a[1..], b[1..]);
      }
    }
  }

  lemma HeadsAgree(a: seq<Range>, b: seq<Range>)
    requires Normal(a) && Normal(b) && a != [] && b != [] && SameNumbers(a, b)
    ensures a[0] == b[0]
  {
    NormalTail(a);
    NormalTail(b);
    assert a[0].Contains(a[0].pos) && b[0].Contains(b[0].pos);
    assert Covers(a, a[0].pos) && Covers(b, b[0].pos);
    assert Covers(b, a[0].pos) && Covers(a, b[0].pos);
    assert Covers(a, a[0].End()) <==> Covers(b, a[0].End());
    assert Covers(a, b[0].End()) <==> Covers(b, b[0].End());
  }

  // ------------------------------------------------------------------ adding

  /** Reference insertion: carry the new range along, absorbing every range it touches. */
  function Added(rs: seq<Range>, r: Range): seq<Range>
    decreases |rs|
  {
    if r.len == 0 then rs
    else if rs == [] then [r]
    else if CanRangeMerge(rs[0], r) then Added(rs[1..], RangeMerge(rs[0], r))
    else if r.pos < rs[0].pos then [r] + rs
    else [rs[0]] + Added(rs[1..], r)
  }

  /** Adding a range is exactly set union and keeps the normal form. */
  lemma {:induction false} AddedMeaning(rs: seq<Range>, r: Range)
    requires Normal(rs)
    ensures Normal(Added(rs, r))
    ensures r.len > 0 ==> Added(rs, r) != [] && Added(rs, r)[0].pos == if rs == [] then r.pos else Min(rs[0].pos, r.pos)
    ensures forall n: nat :: Covers(Added(rs, r), n) <==> Covers(rs, n) || r.Contains(n)
    decreases |rs|
  {
    if r.len > 0 {
      if rs == [] {
        assert [r][0] == r;
      } else {
        NormalTail(rs);
        if CanRangeMerge(rs[0], r) {
          AddedMeaning(rs[1..], RangeMerge(rs[0], r));
        } else if r.pos < rs[0].pos {
          NormalCons(r, rs);
        } else {
          AddedMeaning(rs[1..], r);
          NormalCons(rs[0], Added(rs[1..], r));
        }
      }
    }
  }

  lemma NormalCons(r: Range, rs: seq<Range>)
    requires Normal(rs) && r.len > 0 && (rs != [] ==> r.End() < rs[0].pos)
    ensures Normal([r] + rs)
    ensures forall n: nat :: Covers([r] + rs, n) <==> Covers(rs, n) || r.Contains(n)
  {
    forall n: nat {
      CoversCons(r, rs, n);
    }
  }

  /** Adding a list of ranges one by one, in list order. */
  function AddedAll(rs: seq<Range>, list: seq<Range>): seq<Range>
    decreases |list|
  {
    if list == [] then rs else AddedAll(Added(rs, list[0]), list[1..])
  }

  lemma {:induction false} AddedAllMeaning(rs: seq<Range>, list: seq<Range>)
    requires Normal(rs)
    ensures Normal(AddedAll(rs, list))
    ensures forall n: nat :: Covers(AddedAll(rs, list), n) <==> Covers(rs, n) || Covers(list, n)
    decreases |list|
  {
    if list != [] {
      AddedMeaning(rs, list[0]);
      AddedAllMeaning(Added(rs, list[0]), list[1..]);
      forall n: nat
        ensures Covers(list, n) <==> list[0].Contains(n) || Covers(list[1..], n)
      {
        assert list == [list[0]] + list[1..];
        CoversCons(list[0], list[1..], n);
      }
    }
  }

  /** Lists that cover the same numbers lead to the same queue, whatever their order and grouping. */
  lemma AddingIgnoresOrder(rs: seq<Range>, list1: seq<Range>, list2: seq<Range>)
    requires Normal(rs) && SameNumbers(list1, list2)
    ensures AddedAll(rs, list1) == AddedAll(rs, list2)
  {
    AddedAllMeaning(rs, list1);
    AddedAllMeaning(rs, list2);
    CanonicalForm(AddedAll(rs, list1), AddedAll(rs, list2));
  }

  // ----------------------------------------------------------------- concat

  /** What the neighbour-merging pass makes of an arbitrary list. */
  function Concatenated(rs: seq<Range>): seq<Range>
    decreases |rs|
  {
    if |rs| < 2 then rs
    else if CanRangeMerge(rs[0], rs[1]) then Concatenated([RangeMerge(rs[0], rs[1])] + rs[2..])
    else [rs[0]] + Concatenated(rs[1..])
  }

  lemma {:induction false} NormalIsConcatenated(rs: seq<Range>)
    requires Normal(rs)
    ensures Concatenated(rs) == rs
  {
    if |rs| >= 2 {
      NormalIsConcatenated(rs[1..]);
    }
  }

  lemma {:induction false} ConcatenatedCarry(r: Range, rs: seq<Range>)
    requires Normal(rs) && r.len > 0 && (rs != [] ==> r.pos < rs[0].pos)
    ensures Concatenated([r] + rs) == Added(rs, r)
    decreases |rs|
  {
    if rs != [] {
      var s := [r] + rs;
      NormalTail(rs);
      if CanRangeMerge(r, rs[0]) {
        var m := RangeMerge(r, rs[0]);
        assert s[2..] == rs[1..];
        ConcatenatedCarry(m, rs[1..]);
      } else {
        assert s[1..] == rs;
        NormalIsConcatenated(rs);
      }
    }
  }

  lemma ConcatenatedSkip(a: Range, rs: seq<Range>)
    requires rs != [] ==> !CanRangeMerge(a, rs[0])
    ensures Concatenated([a] + rs) == [a] + Concatenated(rs)
  {
    assert ([a] + rs)[1..] == rs;
  }

  lemma ConcatenatedMerge(a: Range, b: Range, rs: seq<Range>)
    requires CanRangeMerge(a, b)
    ensures Concatenated([a, b] + rs) == Concatenated([RangeMerge(a, b)] + rs)
  {
    assert ([a, b] + rs)[2..] == rs;
  }

  /** r lies beyond every range of a and touches none of them. */
  predicate Passed(a: seq<Range>, r: Range) {
    forall k :: 0 <= k < |a| ==> !CanRangeMerge(a[k], r) && a[k].pos <= r.pos
  }

  lemma AddedSkip(a: Range, rs: seq<Range>, r: Range)
    requires r.len > 0 && !CanRangeMerge(a, r) && a.pos <= r.pos
    ensures Added([a] + rs, r) == [a] + Added(rs, r)
  {
    assert ([a] + rs)[1..] == rs;
  }

  lemma ConcatRepairsFront(rs: seq<Range>, r: Range)
    requires Normal(rs) && rs != [] && r.len > 0 && CanRangeMerge(rs[0], r)
    ensures Concatenated([r] + rs) == Added(rs, r)
  {
    NormalTail(rs);
    var tail := rs[1..];
    assert [r] + rs == [r, rs[0]] + tail;
    ConcatenatedMerge(r, rs[0], tail);
    ConcatenatedCarry(RangeMerge(rs[0], r), tail);
  }

  lemma ConcatStep(rs: seq<Range>, e: nat)
    requires e + 1 < |rs|
    ensures CanRangeMerge(rs[e], rs[e + 1]) ==>
      var out := rs[..e] + [RangeMerge(rs[e], rs[e + 1])] + rs[e + 2..];
      out[..e] + Concatenated(out[e..]) == rs[..e] + Concatenated(rs[e..])
    ensures !CanRangeMerge(rs[e], rs[e + 1]) ==>
      rs[..e + 1] + Concatenated(rs[e + 1..]) == rs[..e] + Concatenated(rs[e..])
  {
    var rest := rs[e + 2..];
    if CanRangeMerge(rs[e], rs[e + 1]) {
      var out := rs[..e] + [RangeMerge(rs[e], rs[e + 1])] + rest;
      assert rs[e..] == [rs[e], rs[e + 1]] + rest;
      ConcatenatedMerge(rs[e], rs[e + 1], rest);
      assert out[e..] == [RangeMerge(rs[e], rs[e + 1])] + rest && out[..e] == rs[..e];
    } else {
      assert rs[e..] == [rs[e]] + rs[e + 1..];
      ConcatenatedSkip(rs[e], rs[e + 1..]);
      assert rs[..e + 1] == rs[..e] + [rs[e]];
    }
  }

  /** The repair: r sits before the first range it touches, possibly out of order. */
  lemma {:induction false} ConcatRepairs(a: seq<Range>, b: seq<Range>, r: Range)
    requires Normal(a + b) && r.len > 0 && Passed(a, r)
    requires b != [] && CanRangeMerge(b[0], r)
    ensures Concatenated(a + ([r] + b)) == Added(a + b, r)
    decreases |a|
  {
    if a == [] {
      assert a + b == b && a + ([r] + b) == [r] + b;
      ConcatRepairsFront(b, r);
    } else {
      var rest := a[1..];
      assert a + b == [a[0]] + (rest + b) && a + ([r] + b) == [a[0]] + (rest + ([r] + b));
      assert (a + b)[1..] == rest + b;
      NormalTail(a + b);
      ConcatRepairs(rest, b, r);
      AddedSkip(a[0], rest + b, r);
      assert (rest + ([r] + b))[0] == if rest == [] then r else (a + b)[1];
      ConcatenatedSkip(a[0], rest + ([r] + b));
    }
  }

  /** No range touches r, which lies between its neighbours: it is simply inserted. */
  lemma {:induction false} AddedInGap(a: seq<Range>, b: seq<Range>, r: Range)
    requires r.len > 0 && Passed(a, r)
    requires b != [] ==> !CanRangeMerge(b[0], r) && r.pos < b[0].pos
    ensures Added(a + b, r) == a + ([r] + b)
    decreases |a|
  {
    if a == [] {
      assert a + b == b && a + ([r] + b) == [r] + b;
    } else {
      var rest := a[1..];
      assert a + b == [a[0]] + (rest + b) && a + ([r] + b) == [a[0]] + (rest + ([r] + b));
      AddedInGap(rest, b, r);
      AddedSkip(a[0], rest + b, r);
    }
  }

  /** How many ranges the source walks past before it places r. */
  function Stop(rs: seq<Range>, r: Range): (i: nat)
    ensures i <= |rs| && Passed(rs[..i], r)
    ensures i < |rs| ==> CanRangeMerge(rs[i], r) || r.pos < rs[i].pos
  {
    if rs == [] || CanRangeMerge(rs[0], r) || r.pos < rs[0].pos then 0 else 1 + Stop(rs[1..], r)
  }

  /** What AddRange makes of any list, in normal form or not. */
  function Placed(rs: seq<Range>, r: Range): seq<Range> {
    var i := Stop(rs, r);
    if r.len == 0 then rs
    else if i < |rs| && CanRangeMerge(rs[i], r) then Concatenated(rs[..i] + ([r] + rs[i..]))
    else rs[..i] + ([r] + rs[i..])
  }

  function PlacedAll(rs: seq<Range>, list: seq<Range>): seq<Range>
    decreases |list|
  {
    if list == [] then rs else PlacedAll(Placed(rs, list[0]), list[1..])
  }

  /** On a queue in normal form, placing a range adds it. */
  lemma PlacedIsAdded(rs: seq<Range>, r: Range)
    requires Normal(rs)
    ensures Placed(rs, r) == Added(rs, r)
  {
    hide Concatenated, Added, CanRangeMerge, Passed;
    if r.len == 0 {
      NothingAdded(rs, r);
    } else {
      var i := Stop(rs, r);
      assert rs[..i] + rs[i..] == rs;
      if i < |rs| && CanRangeMerge(rs[i], r) {
        ConcatRepairs(rs[..i], rs[i..], r);
      } else {
        AddedInGap(rs[..i], rs[i..], r);
      }
    }
  }

  lemma NothingAdded(rs: seq<Range>, r: Range)
    requires r.len == 0
    ensures Added(rs, r) == rs
  {
  }

  lemma {:induction false} PlacedAllIsAddedAll(rs: seq<Range>, list: seq<Range>)
    requires Normal(rs)
    ensures PlacedAll(rs, list) == AddedAll(rs, list)
    decreases |list|
  {
    hide Placed, Added, Normal, Covers;
    if list != [] {
      PlacedIsAdded(rs, list[0]);
      AddedMeaning(rs, list[0]);
      PlacedAllIsAddedAll(Added(rs, list[0]), list[1..]);
    }
  }

  lemma StopNext(rs: seq<Range>, i: nat, r: Range)
    requires i <= |rs|
    ensures i < |rs| && (CanRangeMerge(rs[i], r) || r.pos < rs[i].pos) ==> Stop(rs[i..], r) == 0
    ensures i < |rs| && !CanRangeMerge(rs[i], r) && r.pos >= rs[i].pos ==> Stop(rs[i..], r) == 1 + Stop(rs[i + 1..], r)
    ensures i == |rs| ==> Stop(rs[i..], r) == 0
  {
    hide CanRangeMerge;
    assert i < |rs| ==> rs[i..][0] == rs[i] && rs[i..][1..] == rs[i + 1..];
  }

  // ------------------------------------------------------------- subtracting

  /** What is left of v once the numbers of r are gone: nothing, one range, or two. */
  function Pieces(v: Range, r: Range): seq<Range> {
    if v.len == 0 || r.len == 0 || v.End() <= r.pos || r.End() <= v.pos then [v]
    else
      (if v.pos < r.pos then [Range(v.pos, r.pos - v.pos)] else []) +
      (if r.End() < v.End() then [Range(r.End(), v.End() - r.End())] else [])
  }

  lemma PiecesMeaning(v: Range, r: Range)
    requires v.len > 0
    ensures Normal(Pieces(v, r))
    ensures forall i :: 0 <= i < |Pieces(v, r)| ==> v.pos <= Pieces(v, r)[i].pos && Pieces(v, r)[i].End() <= v.End()
    ensures forall n: nat :: Covers(Pieces(v, r), n) <==> v.Contains(n) && !r.Contains(n)
  {
    var out := Pieces(v, r);
    if r.len == 0 || v.End() <= r.pos || r.End() <= v.pos {
      assert out[0] == v;
    } else {
      assert v.pos < r.pos ==> out[0] == Range(v.pos, r.pos - v.pos);
      assert r.End() < v.End() ==> out[|out| - 1] == Range(r.End(), v.End() - r.End());
    }
  }

  /** The source finds the pieces through the intersection of v with r. */
  lemma PiecesByIntersection(v: Range, r: Range)
    ensures var ir := RangeIntersect(v, r);
      Pieces(v, r) ==
        if ir.len == 0 then [v]
        else if ir == v then []
        else if ir.pos == v.pos then [Range(ir.End(), v.End() - ir.End())]
        else if ir.End() == v.End() then [Range(v.pos, ir.pos - v.pos)]
        else [Range(v.pos, ir.pos - v.pos), Range(ir.End(), v.End() - ir.End())]
  {
  }

  function Subtracted(rs: seq<Range>, r: Range): seq<Range> {
    if rs == [] then [] else Pieces(rs[0], r) + Subtracted(rs[1..], r)
  }

  lemma NormalConcat(a: seq<Range>, b: seq<Range>)
    requires Normal(a) && Normal(b)
    requires forall i, j :: 0 <= i < |a| && 0 <= j < |b| ==> a[i].End() < b[j].pos
    ensures Normal(a + b)
    ensures forall n: nat :: Covers(a + b, n) <==> Covers(a, n) || Covers(b, n)
  {
    forall n: nat {
      CoversConcat(a, b, n);
    }
  }

  /** Subtraction is exactly set difference and keeps the normal form. */
  lemma {:induction false} SubtractedMeaning(rs: seq<Range>, r: Range)
    requires Normal(rs)
    ensures Normal(Subtracted(rs, r))
    ensures forall i :: 0 <= i < |Subtracted(rs, r)| ==> rs != [] && rs[0].pos <= Subtracted(rs, r)[i].pos
    ensures forall n: nat :: Covers(Subtracted(rs, r), n) <==> Covers(rs, n) && !r.Contains(n)
  {
    if rs != [] {
      NormalTail(rs);
      PiecesMeaning(rs[0], r);
      SubtractedMeaning(rs[1..], r);
      NormalConcat(Pieces(rs[0], r), Subtracted(rs[1..], r));
    }
  }

  lemma {:induction false} SubtractBeyond(rs: seq<Range>, r: Range)
    requires Normal(rs) && (rs != [] ==> r.End() < rs[0].pos)
    ensures Subtracted(rs, r) == rs
  {
    if rs != [] {
      NormalTail(rs);
      SubtractBeyond(rs[1..], r);
    }
  }

  /** What SubtractRange makes of any list: it leaves off behind the first range that lies beyond r. */
  function Trimmed(rs: seq<Range>, r: Range): seq<Range> {
    if rs == [] then []
    else Pieces(rs[0], r) + if r.End() < rs[0].pos then rs[1..] else Trimmed(rs[1..], r)
  }

  function TrimmedAll(rs: seq<Range>, list: seq<Range>): seq<Range>
    decreases |list|
  {
    if list == [] then rs else TrimmedAll(Trimmed(rs, list[0]), list[1..])
  }

  /** On a queue in normal form the early exit misses nothing. */
  lemma {:induction false} TrimmedIsSubtracted(rs: seq<Range>, r: Range)
    requires Normal(rs)
    ensures Trimmed(rs, r) == Subtracted(rs, r)
  {
    if rs != [] {
      NormalTail(rs);
      if r.End() < rs[0].pos {
        SubtractBeyond(rs[1..], r);
      } else {
        TrimmedIsSubtracted(rs[1..], r);
      }
    }
  }

  /** Subtracting a whole queue is set difference, range by range. */
  lemma {:induction false} TrimmedAllMeaning(rs: seq<Range>, list: seq<Range>)
    requires Normal(rs)
    ensures Normal(TrimmedAll(rs, list))
    ensures forall n: nat :: Covers(TrimmedAll(rs, list), n) <==> Covers(rs, n) && !Covers(list, n)
    decreases |list|
  {
    hide Trimmed, Subtracted, Normal, Covers;
    if list == [] {
      NothingCovered();
    } else {
      TrimmedIsSubtracted(rs, list[0]);
      SubtractedMeaning(rs, list[0]);
      TrimmedAllMeaning(Trimmed(rs, list[0]), list[1..]);
      forall n: nat {
        CoversFirst(list, n);
      }
    }
  }

  lemma NothingCovered()
    ensures forall n: nat :: !Covers([], n)
  {
  }

  lemma CoversFirst(rs: seq<Range>, n: nat)
    requires rs != []
    ensures Covers(rs, n) <==> rs[0].Contains(n) || Covers(rs[1..], n)
  {
    assert rs == [rs[0]] + rs[1..];
    CoversCons(rs[0], rs[1..], n);
  }

  /** Removing what was just added to a queue that had none of it restores the queue. */
  lemma SubtractUndoesAdd(rs: seq<Range>, r: Range)
    requires Normal(rs) && forall n: nat :: r.Contains(n) ==> !Covers(rs, n)
    ensures Subtracted(Added(rs, r), r) == rs
  {
    AddedMeaning(rs, r);
    SubtractedMeaning(Added(rs, r), r);
    CanonicalForm(Subtracted(Added(rs, r), r), rs);
  }

  // --------------------------------------------------------------- the queue

  class RangeQueue {
    var ranges: seq<Range>

    constructor ()
      ensures ranges == []
    {
      ranges := [];
    }

    /** RangeQueueFromArray: the array is taken as it is, without normalising. */
    constructor FromArray(ra: seq<Range>)
      ensures ranges == ra
    {
      ranges := [];
      new;
      for i := 0 to |ra|
        invariant ranges == ra[..i]
      {
        ranges := ranges + [ra[i]];
      }
    }

    method Concat()
      modifies this
      ensures ranges == Concatenated(old(ranges))
    {
      var e := 0;
      while e + 1 < |ranges|
        invariant e == 0 || e < |ranges|
        invariant ranges[..e] + Concatenated(ranges[e..]) == Concatenated(old(ranges))
        decreases |ranges| - e
      {
        ConcatStep(ranges, e);
        if CanRangeMerge(ranges[e], ranges[e + 1]) {
          ranges := ranges[..e] + [RangeMerge(ranges[e], ranges[e + 1])] + ranges[e + 2..];
        } else {
          e := e + 1;
        }
      }
      assert ranges[..e] + ranges[e..] == ranges;
    }

    method AddRange(r: Range)
      modifies this
      ensures ranges == Placed(old(ranges), r)
      ensures Normal(old(ranges)) ==> ranges == Added(old(ranges), r)
    {
      hide Concatenated, Added, CanRangeMerge, Normal, Stop;
      if Normal(ranges) {
        PlacedIsAdded(ranges, r);
      }
      if r.len == 0 {
        return;
      }
      var i := 0;
      assert ranges[0..] == ranges;
      while i < |ranges|
        invariant ranges == old(ranges) && i <= |ranges|
        invariant Stop(ranges, r) == i + Stop(ranges[i..], r)
      {
        StopNext(ranges, i, r);
        if CanRangeMerge(ranges[i], r) {
          ranges := ranges[..i] + ([r] + ranges[i..]);
          Concat();
          return;
        } else if r.pos < ranges[i].pos {
          ranges := ranges[..i] + ([r] + ranges[i..]);
          return;
        }
        i := i + 1;
      }
      StopNext(ranges, i, r);
      assert ranges[..i] + ([r] + ranges[i..]) == ranges + [r];
      ranges := ranges + [r];
    }

    /** The loop body of SubtractRange: what it does to the element at e, and where it goes next. */
    method SubtractAt(e: nat, r: Range) returns (next: nat)
      requires e < |ranges|
      modifies this
      ensures ranges == old(ranges[..e]) + Pieces(old(ranges[e]), r) + old(ranges[e + 1..])
      ensures next == e + |Pieces(old(ranges[e]), r)|
    {
      var v := ranges[e];
      PiecesByIntersection(v, r);
      var ir := RangeIntersect(v, r);
      next := e + 1;
      if ir.len > 0 {
        if ir == v {
          ranges := ranges[..e] + ranges[e + 1..];
          next := e;
        } else if ir.pos != v.pos {
          ranges := ranges[e := Range(v.pos, ir.pos - v.pos)];
          if ir.End() != v.End() {
            ranges := ranges[..e + 1] + [Range(ir.End(), v.End() - ir.End())] + ranges[e + 1..];
            next := e + 2;
          }
        } else {
          ranges := ranges[e := Range(ir.End(), v.End() - ir.End())];
        }
      }
    }

    method SubtractRange(r: Range)
      modifies this
      ensures ranges == Trimmed(old(ranges), r)
      ensures Normal(old(ranges)) ==> ranges == Subtracted(old(ranges), r)
    {
      hide Normal, Pieces, Subtracted;
      if Normal(ranges) {
        TrimmedIsSubtracted(ranges, r);
      }
      var e := 0;
      assert ranges[..0] + Trimmed(ranges[0..], r) == Trimmed(ranges, r) by {
        assert ranges[0..] == ranges;
      }
      while e < |ranges|
        invariant e <= |ranges| && ranges[..e] + Trimmed(ranges[e..], r) == Trimmed(old(ranges), r)
        decreases |ranges| - e
      {
        ghost var done, rest := ranges[..e], ranges[e..];
        var v := ranges[e];
        assert rest[0] == v && rest[1..] == ranges[e + 1..];
        e := SubtractAt(e, r);
        assert ranges[..e] == done + Pieces(v, r) && ranges[e..] == rest[1..];
        if r.End() < v.pos {
          assert ranges == done + (Pieces(v, r) + rest[1..]);
          return;
        }
        assert done + Pieces(v, r) + Trimmed(rest[1..], r) == done + (Pieces(v, r) + Trimmed(rest[1..], r));
      }
      assert ranges[..e] == ranges && ranges[e..] == [] && ranges + [] == ranges;
    }

    method AddRangeQueue(rq: RangeQueue)
      requires rq != this
      modifies this
      ensures ranges == PlacedAll(old(ranges), rq.ranges)
      ensures Normal(old(ranges)) ==> ranges == AddedAll(old(ranges), rq.ranges)
    {
      hide Placed, Added, AddedAll, Normal;
      if Normal(ranges) {
        PlacedAllIsAddedAll(ranges, rq.ranges);
      }
      assert rq.ranges[0..] == rq.ranges;
      for e := 0 to |rq.ranges|
        invariant PlacedAll(ranges, rq.ranges[e..]) == PlacedAll(old(ranges), rq.ranges)
      {
        assert rq.ranges[e..][0] == rq.ranges[e] && rq.ranges[e..][1..] == rq.ranges[e + 1..];
        AddRange(rq.ranges[e]);
      }
      assert rq.ranges[|rq.ranges|..] == [];
    }

    method SubtractRangeQueue(rq: RangeQueue)
      requires rq != this
      modifies this
      ensures ranges == TrimmedAll(old(ranges), rq.ranges)
      ensures Normal(old(ranges)) ==> Normal(ranges)
      ensures Normal(old(ranges)) ==>
        forall n: nat :: Covers(ranges, n) <==> Covers(old(ranges), n) && !Covers(rq.ranges, n)
    {
      hide Trimmed, Normal, Covers;
      if Normal(ranges) {
        TrimmedAllMeaning(ranges, rq.ranges);
      }
      assert rq.ranges[0..] == rq.ranges;
      for e := 0 to |rq.ranges|
        invariant TrimmedAll(ranges, rq.ranges[e..]) == TrimmedAll(old(ranges), rq.ranges)
      {
        assert rq.ranges[e..][0] == rq.ranges[e] && rq.ranges[e..][1..] == rq.ranges[e + 1..];
        SubtractRange(rq.ranges[e]);
      }
      assert rq.ranges[|rq.ranges|..] == [];
    }

    method Equals(rq: RangeQueue) returns (same: bool)
      ensures same <==> ranges == rq.ranges
      ensures Normal(ranges) && Normal(rq.ranges) ==> (same <==> SameNumbers(ranges, rq.ranges))
    {
      if Normal(ranges) && Normal(rq.ranges) {
        CanonicalForm(ranges, rq.ranges);
      }
      if |ranges| != |rq.ranges| {
        return false;
      }
      var e := 0;
      while e < |ranges|
        invariant e <= |ranges| && ranges[..e] == rq.ranges[..e]
      {
        if ranges[e] != rq.ranges[e] {
          return false;
        }
        e := e + 1;
      }
      return true;
    }

    method Contain(pos: nat) returns (found: bool)
      ensures found <==> Covers(ranges, pos)
    {
      for e := 0 to |ranges|
        invariant forall k :: 0 <= k < e ==> !ranges[k].Contains(pos)
      {
        if ranges[e].Contains(pos) {
          return true;
        }
      }
      return false;
    }
  }

  lemma CoversSnoc(rs: seq<Range>, e: nat)
    requires e < |rs|
    ensures forall n: nat :: Covers(rs[..e + 1], n) <==> Covers(rs[..e], n) || rs[e].Contains(n)
  {
    forall n: nat
      ensures Covers(rs[..e + 1], n) <==> Covers(rs[..e], n) || rs[e].Contains(n)
    {
      assert rs[..e + 1] == rs[..e] + [rs[e]];
      CoversConcat(rs[..e], [rs[e]], n);
      assert Covers([rs[e]], n) <==> [rs[e]][0].Contains(n);
    }
  }

  lemma IntersectContains(a: Range, b: Range)
    ensures forall n: nat :: RangeIntersect(a, b).Contains(n) <==> a.Contains(n) && b.Contains(n)
  {
  }

  method RangeQueueIntersect(a: RangeQueue, b: RangeQueue) returns (rq: RangeQueue)
    ensures fresh(rq) && Normal(rq.ranges)
    ensures forall n: nat :: Covers(rq.ranges, n) <==> Covers(a.ranges, n) && Covers(b.ranges, n)
  {
    hide Normal, Covers, Added, Placed;
    rq := new RangeQueue();
    NothingCovered();
    EmptyIsNormal();
    for i := 0 to |a.ranges|
      invariant fresh(rq) && Normal(rq.ranges)
      invariant forall n: nat :: Covers(rq.ranges, n) <==> Covers(a.ranges[..i], n) && Covers(b.ranges, n)
    {
      IntersectWith(rq, a.ranges[i], b);
      CoversSnoc(a.ranges, i);
    }
    assert a.ranges[..|a.ranges|] == a.ranges;
  }

  lemma EmptyIsNormal()
    ensures Normal([])
  {
  }

  /** The inner loop: the numbers of v that b covers are added to rq. */
  method IntersectWith(rq: RangeQueue, v: Range, b: RangeQueue)
    requires rq != b && Normal(rq.ranges)
    modifies rq
    ensures Normal(rq.ranges)
    ensures forall n: nat :: Covers(rq.ranges, n) <==>
      Covers(old(rq.ranges), n) || (v.Contains(n) && Covers(b.ranges, n))
  {
    hide Normal, Covers, Added, Placed, RangeIntersect;
    NothingCovered();
    for j := 0 to |b.ranges|
      invariant Normal(rq.ranges)
      invariant forall n: nat :: Covers(rq.ranges, n) <==>
        Covers(old(rq.ranges), n) || (v.Contains(n) && Covers(b.ranges[..j], n))
    {
      AddedMeaning(rq.ranges, RangeIntersect(v, b.ranges[j]));
      IntersectContains(v, b.ranges[j]);
      rq.AddRange(RangeIntersect(v, b.ranges[j]));
      CoversSnoc(b.ranges, j);
    }
    assert b.ranges[..|b.ranges|] == b.ranges;
  }
}
