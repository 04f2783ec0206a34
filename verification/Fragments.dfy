/** Data chunks, the cutting of messages into chunks, and the reading of messages back out of them. */
module Fragments {
  import opened ByteBuffers

  const SMSS := 1460

  type FragCtrl = x: int | 0 <= x < 4
  const FC_WHOLE: FragCtrl := 0
  const FC_BEGIN: FragCtrl := 1
  const FC_END: FragCtrl := 2
  const FC_MIDDLE: FragCtrl := 3

  /** The receiver leaves the four fields of the sender's bookkeeping at their zero values. */
  datatype Chunk = Chunk(frag: FragCtrl, seqNum: nat, data: Bytes,
                         sendCount: nat, inFlight: bool, tsn: nat, nakCount: nat)

  function NewChunk(frag: FragCtrl, seqNum: nat, data: Bytes): Chunk {
    Chunk(frag, seqNum, data, 0, false, 0, 0)
  }

  /** The chunk as it was when it was cut, or as the receiver rebuilds it. */
  function Plain(c: Chunk): Chunk {
    NewChunk(c.frag, c.seqNum, c.data)
  }

  function SumData(cs: seq<Chunk>): nat {
    if cs == [] then 0 else |cs[0].data| + SumData(cs[1..])
  }

  lemma {:induction false} SumDataConcat(a: seq<Chunk>, b: seq<Chunk>)
    ensures SumData(a + b) == SumData(a) + SumData(b)
  {
    if a == [] {
      assert a + b == b;
    } else {
      assert (a + b)[1..] == a[1..] + b;
      SumDataConcat(a[1..], b);
    }
  }

  // ----------------------------------------------------------------- cutting

  /** The source's loop from offset i: the chunks numbered last + 1 and up. */
  function Cut(data: Bytes, i: nat, last: nat): seq<Chunk>
    requires i <= |data|
    decreases |data| - i
  {
    if i == |data| then []
    else if i + SMSS >= |data| then [NewChunk(FC_END, last + 1, data[i..])]
    else
      [NewChunk(if i == 0 then FC_BEGIN else FC_MIDDLE, last + 1, data[i..i + SMSS])]
      + Cut(data, i + SMSS, last + 1)
  }

  function Fragmented(data: Bytes, last: nat): seq<Chunk> {
    if |data| <= SMSS then [NewChunk(FC_WHOLE, last + 1, data)] else Cut(data, 0, last)
  }

  /** Everything a sender has numbered once it was given these messages. */
  function Stream(msgs: seq<Bytes>): seq<Chunk> {
    if msgs == [] then []
    else
      var before := Stream(msgs[..|msgs| - 1]);
      before + Fragmented(msgs[|msgs| - 1], |before|)
  }

  predicate EndsMessage(c: Chunk) {
    c.frag == FC_WHOLE || c.frag == FC_END
  }

  function Join(cs: seq<Chunk>): Bytes {
    if cs == [] then [] else cs[0].data + Join(cs[1..])
  }

  predicate Numbered(cs: seq<Chunk>, last: nat) {
    forall k :: 0 <= k < |cs| ==> cs[k].seqNum == last + 1 + k
  }

  predicate FitsSegment(cs: seq<Chunk>) {
    forall k :: 0 <= k < |cs| ==> 0 < |cs[k].data| <= SMSS
  }

  /** Plain chunks of which only the last ends a message. */
  predicate OneMessage(cs: seq<Chunk>) {
    && cs != []
    && (forall k :: 0 <= k < |cs| ==> cs[k] == Plain(cs[k]))
    && (forall k :: 0 <= k < |cs| ==> (EndsMessage(cs[k]) <==> k == |cs| - 1))
  }

  lemma {:induction false} CutJoins(data: Bytes, i: nat, last: nat)
    requires i <= |data|
    ensures Join(Cut(data, i, last)) == data[i..]
    decreases |data| - i
  {
    if i < |data| {
      var cs := Cut(data, i, last);
      if i + SMSS >= |data| {
        assert Join(cs[1..]) == [];
      } else {
        assert data[i..i + SMSS] + data[i + SMSS..] == data[i..];
        assert cs[1..] == Cut(data, i + SMSS, last + 1);
        CutJoins(data, i + SMSS, last + 1);
      }
    }
  }

  lemma {:induction false} CutShape(data: Bytes, i: nat, last: nat)
    requires i < |data|
    ensures var cs := Cut(data, i, last);
      && Numbered(cs, last) && FitsSegment(cs) && OneMessage(cs)
      && cs[|cs| - 1].frag == FC_END
      && (forall k :: 0 <= k < |cs| - 1 ==> |cs[k].data| == SMSS)
      && (forall k :: 0 <= k < |cs| - 1 ==> cs[k].frag == if i == 0 && k == 0 then FC_BEGIN else FC_MIDDLE)
    decreases |data| - i
  {
    if i + SMSS < |data| {
      CutShape(data, i + SMSS, last + 1);
    }
  }

  lemma {:induction false} CutCount(data: Bytes, i: nat, last: nat)
    requires i < |data|
    ensures |Cut(data, i, last)| == (|data| - i + SMSS - 1) / SMSS
    decreases |data| - i
  {
    if i + SMSS < |data| {
      CutCount(data, i + SMSS, last + 1);
    }
  }

  /** A message becomes consecutively numbered segments, tagged whole or begin, middle*, end. */
  lemma FragmentShape(data: Bytes, last: nat)
    ensures var cs := Fragmented(data, last);
      && Numbered(cs, last) && OneMessage(cs) && Join(cs) == data
      && (data != [] ==> FitsSegment(cs) && |cs| == (|data| + SMSS - 1) / SMSS)
      && (|cs| == 1 ==> cs[0].frag == FC_WHOLE)
      && (|cs| > 1 ==> cs[0].frag == FC_BEGIN && cs[|cs| - 1].frag == FC_END)
      && (forall k :: 0 < k < |cs| - 1 ==> cs[k].frag == FC_MIDDLE)
      && (forall k :: 0 <= k < |cs| ==> |cs[k].data| <= SMSS)
      && (forall k :: 0 <= k < |cs| - 1 ==> |cs[k].data| == SMSS)
  {
    if |data| <= SMSS {
      var cs := Fragmented(data, last);
      assert Join(cs[1..]) == [];
    } else {
      assert data[0..] == data;
      CutShape(data, 0, last);
      CutCount(data, 0, last);
      CutJoins(data, 0, last);
    }
  }

  lemma StreamSnoc(msgs: seq<Bytes>, m: Bytes)
    ensures Stream(msgs + [m]) == Stream(msgs) + Fragmented(m, |Stream(msgs)|)
  {
    assert (msgs + [m])[..|msgs|] == msgs;
  }

  lemma {:induction false} StreamShape(msgs: seq<Bytes>)
    ensures Numbered(Stream(msgs), 0)
    ensures forall k :: 0 <= k < |Stream(msgs)| ==> Stream(msgs)[k] == Plain(Stream(msgs)[k])
    ensures forall k :: 0 <= k < |Stream(msgs)| ==> |Stream(msgs)[k].data| <= SMSS
  {
    if msgs != [] {
      var n := |msgs| - 1;
      StreamShape(msgs[..n]);
      FragmentShape(msgs[n], |Stream(msgs[..n])|);
    }
  }

  lemma {:induction false} StreamPrefix(msgs: seq<Bytes>, j: nat)
    requires j <= |msgs|
    ensures Stream(msgs[..j]) <= Stream(msgs)
    decreases |msgs|
  {
    if j < |msgs| {
      var n := |msgs| - 1;
      StreamPrefix(msgs[..n], j);
      assert msgs[..n][..j] == msgs[..j];
    } else {
      assert msgs[..j] == msgs;
    }
  }

  lemma PrefixSlice<T>(a: seq<T>, b: seq<T>, s: seq<T>)
    requires a + b <= s
    ensures s[|a|..|a| + |b|] == b
    ensures s[|a|..] == b + s[|a| + |b|..]
  {
    assert s == a + b + s[|a + b|..];
  }

  /** The chunks of message j sit right behind those of the messages before it. */
  lemma MessageSlot(msgs: seq<Bytes>, j: nat)
    requires j < |msgs|
    ensures var start := |Stream(msgs[..j])|;
      var cs := Fragmented(msgs[j], start);
      && |Stream(msgs[..j + 1])| == start + |cs| <= |Stream(msgs)|
      && Stream(msgs)[start..start + |cs|] == cs
      && Stream(msgs)[start..] == cs + Stream(msgs)[start + |cs|..]
  {
    assert msgs[..j + 1] == msgs[..j] + [msgs[j]];
    StreamSnoc(msgs[..j], msgs[j]);
    StreamPrefix(msgs, j + 1);
    PrefixSlice(Stream(msgs[..j]), Fragmented(msgs[j], |Stream(msgs[..j])|), Stream(msgs));
  }

  // ----------------------------------------------------------------- reading

  /** Position of the first chunk that ends a message; the length when there is none. */
  function EndIndex(cs: seq<Chunk>): (e: nat)
    ensures e <= |cs|
    ensures e < |cs| ==> EndsMessage(cs[e])
    ensures forall k :: 0 <= k < e ==> !EndsMessage(cs[k])
  {
    if cs == [] then 0 else if EndsMessage(cs[0]) then 0 else 1 + EndIndex(cs[1..])
  }

  /** Cutting leaves the first end mark exactly on the last chunk of the first message. */
  lemma ReadsBackOne(cs: seq<Chunk>, rest: seq<Chunk>)
    requires OneMessage(cs)
    ensures EndIndex(cs + rest) == |cs| - 1
    ensures (cs + rest)[..|cs|] == cs && (cs + rest)[|cs|..] == rest
  {
    var e := EndIndex(cs + rest);
    assert EndsMessage((cs + rest)[|cs| - 1]);
    assert e < |cs| ==> (cs + rest)[e] == cs[e];
  }

  /** Repeated reading of whole messages from a chunk list. */
  function ReadAll(cs: seq<Chunk>): (msgs: seq<Bytes>)
    decreases |cs|
  {
    var e := EndIndex(cs);
    if e == |cs| then [] else [Join(cs[..e + 1])] + ReadAll(cs[e + 1..])
  }

  lemma {:induction false} ReadAllFront(cs: seq<Chunk>, rest: seq<Chunk>)
    requires OneMessage(cs)
    ensures ReadAll(cs + rest) == [Join(cs)] + ReadAll(rest)
  {
    ReadsBackOne(cs, rest);
  }

  lemma ReadAllSlot(msgs: seq<Bytes>, j: nat)
    requires j < |msgs|
    ensures |Stream(msgs[..j])| <= |Stream(msgs[..j + 1])| <= |Stream(msgs)|
    ensures ReadAll(Stream(msgs)[|Stream(msgs[..j])|..])
         == [msgs[j]] + ReadAll(Stream(msgs)[|Stream(msgs[..j + 1])|..])
  {
    hide Stream, Fragmented, Join, EndIndex, ReadAll;
    MessageSlot(msgs, j);
    var start := |Stream(msgs[..j])|;
    var cs := Fragmented(msgs[j], start);
    FragmentShape(msgs[j], start);
    ReadAllFront(cs, Stream(msgs)[start + |cs|..]);
  }

  lemma {:induction false} ReadsBackFrom(msgs: seq<Bytes>, j: nat)
    requires j <= |msgs|
    ensures |Stream(msgs[..j])| <= |Stream(msgs)|
    ensures ReadAll(Stream(msgs)[|Stream(msgs[..j])|..]) == msgs[j..]
    decreases |msgs| - j
  {
    if j == |msgs| {
      assert msgs[..j] == msgs;
    } else {
      assert msgs[j..] == [msgs[j]] + msgs[j + 1..];
      ReadAllSlot(msgs, j);
      ReadsBackFrom(msgs, j + 1);
    }
  }

  /** Fragmentation and reassembly undo each other for every list of messages. */
  lemma ReadsBackAll(msgs: seq<Bytes>)
    ensures ReadAll(Stream(msgs)) == msgs
  {
    ReadsBackFrom(msgs, 0);
    assert Stream(msgs)[0..] == Stream(msgs) && msgs[0..] == msgs && msgs[..0] == [];
  }

  lemma StreamInjective(a: seq<Bytes>, b: seq<Bytes>)
    requires Stream(a) == Stream(b)
    ensures a == b
  {
    ReadsBackAll(a);
    ReadsBackAll(b);
  }
}
