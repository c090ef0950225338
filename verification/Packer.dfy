/**
  Packing dirty chunks into backend writes: bc_iovec::add_bc() and the loop of sync_membufs() that
  starts another write whenever a chunk is refused; and what is left of a write after the server
  has taken part of it.
 */
module Packer {

  const BC_IOVEC_MAX_VECTORS: nat := 1000

  datatype Bc = Bc(offset: nat, length: nat) {
    function End(): nat {
      offset + length
    }
  }

  // ---------------------------------------------------------------- groups

  /** Bytes of the chunks i..j. */
  function Sum(bcs: seq<Bc>, i: nat, j: nat): nat
    requires i <= j <= |bcs|
    decreases j - i
  {
    if i == j then 0 else Sum(bcs, i, j - 1) + bcs[j - 1].length
  }

  /** The chunks i..j can go out as one write. */
  ghost predicate OneWrite(bcs: seq<Bc>, i: nat, j: nat, max: nat) {
    && i < j <= |bcs|
    && (forall k :: i < k < j ==> bcs[k - 1].End() == bcs[k].offset)
    && Sum(bcs, i, j) <= max && j - i <= BC_IOVEC_MAX_VECTORS
  }

  /** The chunk at j can join the write that holds i..j. */
  predicate Joins(bcs: seq<Bc>, i: nat, j: nat, max: nat)
    requires i < j < |bcs|
  {
    bcs[j - 1].End() == bcs[j].offset && Sum(bcs, i, j) + bcs[j].length <= max && j - i + 1 <= BC_IOVEC_MAX_VECTORS
  }

  /** Where the write that starts with i ends if chunks are added as long as they join. */
  function WriteEnd(bcs: seq<Bc>, i: nat, j: nat, max: nat): (e: nat)
    requires i < j <= |bcs|
    ensures j <= e <= |bcs|
    decreases |bcs| - j
  {
    if j < |bcs| && Joins(bcs, i, j, max) then WriteEnd(bcs, i, j + 1, max) else j
  }

  /** The ends of all writes for the chunks from i on. */
  function Ends(bcs: seq<Bc>, i: nat, max: nat): seq<nat>
    requires i <= |bcs|
    decreases |bcs| - i
  {
    if i == |bcs| then [] else var e := WriteEnd(bcs, i, i + 1, max); [e] + Ends(bcs, e, max)
  }

  /** Ends of consecutive groups that cover the chunks from i on, each of which can go out as one write. */
  ghost predicate Packing(bcs: seq<Bc>, i: nat, ends: seq<nat>, max: nat)
    requires i <= |bcs|
    decreases |ends|
  {
    if ends == [] then i == |bcs|
    else OneWrite(bcs, i, ends[0], max) && Packing(bcs, ends[0], ends[1..], max)
  }

  /** Every write ends where the next chunk could not join it. */
  ghost predicate Forced(bcs: seq<Bc>, i: nat, ends: seq<nat>, max: nat)
    requires i <= |bcs| && Packing(bcs, i, ends, max)
    decreases |ends|
  {
    ends != [] ==>
      && (ends[0] < |bcs| ==> !Joins(bcs, i, ends[0], max))
      && Forced(bcs, ends[0], ends[1..], max)
  }

  ghost predicate AllFit(bcs: seq<Bc>, max: nat) {
    forall i :: 0 <= i < |bcs| ==> 0 < bcs[i].length <= max
  }

  lemma {:induction false} WriteEndIsOneWrite(bcs: seq<Bc>, i: nat, j: nat, max: nat)
    requires OneWrite(bcs, i, j, max)
    ensures var e := WriteEnd(bcs, i, j, max);
            OneWrite(bcs, i, e, max) && (e < |bcs| ==> !Joins(bcs, i, e, max))
    decreases |bcs| - j
  {
    if j < |bcs| && Joins(bcs, i, j, max) {
      WriteEndIsOneWrite(bcs, i, j + 1, max);
    }
  }

  /** The writes cover the chunks in order, each keeps the limits, and each was ended by one of them. */
  lemma {:induction false} EndsPack(bcs: seq<Bc>, i: nat, max: nat)
    requires AllFit(bcs, max) && i <= |bcs|
    ensures Packing(bcs, i, Ends(bcs, i, max), max) && Forced(bcs, i, Ends(bcs, i, max), max)
    decreases |bcs| - i
  {
    if i < |bcs| {
      assert Sum(bcs, i, i) == 0;
      WriteEndIsOneWrite(bcs, i, i + 1, max);
      EndsPack(bcs, WriteEnd(bcs, i, i + 1, max), max);
    }
  }

  lemma {:induction false} SumSplit(bcs: seq<Bc>, i: nat, m: nat, j: nat)
    requires i <= m <= j <= |bcs|
    ensures Sum(bcs, i, j) == Sum(bcs, i, m) + Sum(bcs, m, j)
    decreases j - m
  {
    if m < j { SumSplit(bcs, i, m, j - 1); }
  }

  /** A write that starts later may reach at least as far. */
  lemma {:induction false} ReachesAsFar(bcs: seq<Bc>, a: nat, i: nat, j: nat, b: nat, max: nat)
    requires a <= i < j <= b && OneWrite(bcs, a, b, max)
    ensures b <= WriteEnd(bcs, i, j, max)
    decreases b - j
  {
    if j < b {
      SumSplit(bcs, a, i, j + 1);
      SumSplit(bcs, a, j + 1, b);
      assert Joins(bcs, i, j, max);
      ReachesAsFar(bcs, a, i, j + 1, b, max);
    }
  }

  /** Adding as long as possible is never behind any other way of packing that had a head start. */
  lemma {:induction false} StaysAhead(bcs: seq<Bc>, i: nat, a: nat, ends: seq<nat>, max: nat)
    requires a <= i <= |bcs| && Packing(bcs, a, ends, max)
    ensures |Ends(bcs, i, max)| <= |ends|
    decreases |ends|
  {
    if i < |bcs| {
      var b, e := ends[0], WriteEnd(bcs, i, i + 1, max);
      if i < b { ReachesAsFar(bcs, a, i, i + 1, b, max); }
      StaysAhead(bcs, e, b, ends[1..], max);
    }
  }

  /** No way of packing the chunks in order needs fewer writes. */
  lemma FewestWrites(bcs: seq<Bc>, ends: seq<nat>, max: nat)
    requires Packing(bcs, 0, ends, max)
    ensures |Ends(bcs, 0, max)| <= |ends|
  {
    StaysAhead(bcs, 0, 0, ends, max);
  }

  // ---------------------------------------------------------------- the writes

  function Total(bcs: seq<Bc>): nat {
    if bcs == [] then 0 else bcs[0].length + Total(bcs[1..])
  }

  lemma {:induction false} TotalConcat(a: seq<Bc>, b: seq<Bc>)
    ensures Total(a + b) == Total(a) + Total(b)
  {
    if a == [] {
      assert a + b == b;
    } else {
      TotalConcat(a[1..], b);
      assert (a + b)[1..] == a[1..] + b;
    }
  }

  lemma {:induction false} SumIsTotal(bcs: seq<Bc>, i: nat, j: nat)
    requires i <= j <= |bcs|
    ensures Sum(bcs, i, j) == Total(bcs[i..j])
    decreases j - i
  {
    if i < j {
      SumIsTotal(bcs, i, j - 1);
      assert bcs[i..j] == bcs[i..j - 1] + [bcs[j - 1]];
      TotalConcat(bcs[i..j - 1], [bcs[j - 1]]);
      assert [bcs[j - 1]][1..] == [];
    }
  }

  class BcIovec {
    const maxIosize: nat
    var offset: nat
    var length: nat
    var origOffset: nat
    var origLength: nat
    var bcq: seq<Bc>
    var pvt: nat

    /** The queue is one range of the file of which pvt bytes are done. */
    ghost predicate Valid()
      reads this
    {
      && (forall k :: 0 < k < |bcq| ==> bcq[k - 1].End() == bcq[k].offset)
      && (forall k :: 0 <= k < |bcq| ==> 0 < bcq[k].length)
      && (if bcq == [] then pvt == 0 && length == 0
          else pvt < bcq[0].length && offset == bcq[0].offset + pvt)
      && length == Total(bcq) - pvt
    }

    constructor (max: nat)
      ensures Valid() && bcq == [] && maxIosize == max && length == 0
    {
      maxIosize, offset, length, origOffset, origLength, bcq, pvt := max, 0, 0, 0, 0, [], 0;
    }

    /** add_bc() */
    method AddBc(bc: Bc) returns (added: bool)
      requires Valid() && pvt == 0 && 0 < bc.length <= maxIosize
      modifies this
      ensures Valid() && pvt == 0
      ensures added <==> old(bcq) == [] || (old(bcq)[|old(bcq)| - 1].End() == bc.offset
                                            && Total(old(bcq)) + bc.length <= maxIosize
                                            && |old(bcq)| + 1 <= BC_IOVEC_MAX_VECTORS)
      ensures bcq == if added then old(bcq) + [bc] else old(bcq)
      ensures added ==> origOffset == offset && origLength == length
      ensures !added ==> origOffset == old(origOffset) && origLength == old(origLength)
    {
      LastEnds(bcq, 0);
      if bcq == [] {
        offset, origOffset := bc.offset, bc.offset;
        length, origLength := bc.length, bc.length;
        bcq := [bc];
        assert bcq[1..] == [];
        return true;
      } else if offset + length == bc.offset && length + bc.length <= maxIosize
                && |bcq| + 1 <= BC_IOVEC_MAX_VECTORS {
        TotalConcat(bcq, [bc]);
        assert [bc][1..] == [];
        length := length + bc.length;
        origLength, origOffset := length, offset;
        bcq := bcq + [bc];
        return true;
      }
      return false;
    }

    /** One turn of on_io_complete(): the first chunk is done, or part of it and no more. */
    method FinishFirst(bytes: nat) returns (done: seq<Bc>, left: nat)
      requires Valid() && 0 < bytes <= length
      modifies this`offset, this`length, this`bcq, this`pvt
      ensures Valid() && old(bcq) == done + bcq && left < bytes
      ensures offset == old(offset) + (bytes - left) && length == old(length) - (bytes - left)
    {
      var bc := bcq[0];
      var bcLen := bc.length - pvt;
      if bcLen <= bytes {
        done, left := [bc], bytes - bcLen;
        FirstGone(bcq);
        bcq, pvt := bcq[1..], 0;
        offset, length := offset + bcLen, length - bcLen;
      } else {
        done, left := [], 0;
        pvt, offset, length := pvt + bytes, offset + bytes, length - bytes;
      }
    }

    /**
      on_io_complete(): the server took the first `bytes` bytes.  The chunks that are wholly written
      leave the queue; what stays is exactly the rest of the range.
     */
    method OnIoComplete(bytes: nat) returns (done: seq<Bc>)
      requires Valid() && 0 < bytes <= length
      modifies this`offset, this`length, this`bcq, this`pvt
      ensures Valid()
      ensures old(bcq) == done + bcq
      ensures length == old(length) - bytes && offset == old(offset) + bytes
    {
      hide Valid;
      done := [];
      var left: nat := bytes;
      while left != 0
        invariant Valid() && left <= length
        invariant old(bcq) == done + bcq
        invariant length == old(length) - (bytes - left) && offset == old(offset) + (bytes - left)
        decreases left
      {
        var more;
        more, left := FinishFirst(left);
        done := done + more;
      }
    }
  }

  lemma FirstGone(q: seq<Bc>)
    requires q != []
    ensures q == [q[0]] + q[1..] && Total(q[1..]) == Total(q) - q[0].length
    ensures q[1..] == [] ==> Total(q[1..]) == 0
  {
  }

  /** A contiguous queue ends where its bytes end. */
  lemma {:induction false} LastEnds(q: seq<Bc>, i: nat)
    requires forall k :: 0 < k < |q| ==> q[k - 1].End() == q[k].offset
    requires i <= |q|
    ensures i < |q| ==> q[i].offset + Total(q[i..]) == q[|q| - 1].End()
    ensures q[0..] == q
    decreases |q| - i
  {
    if i < |q| {
      LastEnds(q, i + 1);
      assert q[i..][1..] == q[i + 1..];
    }
  }

  /**
    The loop of sync_membufs(): one write after the other, a new one whenever a chunk is refused.
    `flushing` is by how much flushing_seq_num grows.
   */
  method PackAll(bcs: seq<Bc>, max: nat) returns (ends: seq<nat>, flushing: nat)
    requires AllFit(bcs, max)
    ensures ends == Ends(bcs, 0, max)
    ensures flushing == Total(bcs)
  {
    hide Ends, LateEnds, WriteEnd, Sum, Total, BcIovec.Valid;
    ends, flushing := [], 0;
    PackEmpty(bcs, max);
    if bcs == [] {
      return;
    }
    var iov := new BcIovec(max);
    var added := iov.AddBc(bcs[0]);
    flushing := bcs[0].length;
    ghost var i: nat := 0;
    var k: nat := 1;
    while k < |bcs|
      invariant i < k <= |bcs|
      invariant fresh(iov) && iov.Valid() && iov.pvt == 0 && iov.maxIosize == max && iov.bcq == bcs[i..k]
      invariant flushing == Sum(bcs, 0, k)
      invariant Ends(bcs, 0, max) == ends + LateEnds(bcs, i, k, max)
    {
      SumIsTotal(bcs, i, k);
      LateStep(bcs, i, k, max);
      Snoc(bcs, i, k);
      added := iov.AddBc(bcs[k]);
      assert added <==> Joins(bcs, i, k, max);
      if !added {
        Regroup(ends, k, LateEnds(bcs, k, k + 1, max));
        ends := ends + [k];
        iov := new BcIovec(max);
        added := iov.AddBc(bcs[k]);
        i := k;
      }
      flushing := flushing + bcs[k].length;
      k := k + 1;
    }
    LateDone(bcs, i, max);
    ends := ends + [k];
    SumIsTotal(bcs, 0, k);
    assert bcs[0..k] == bcs;
  }

  /** The ends still to come when the write that starts with i holds i..k. */
  function LateEnds(bcs: seq<Bc>, i: nat, k: nat, max: nat): seq<nat>
    requires i < k <= |bcs|
  {
    var e := WriteEnd(bcs, i, k, max);
    [e] + Ends(bcs, e, max)
  }

  lemma PackEmpty(bcs: seq<Bc>, max: nat)
    ensures Total([]) == 0 && (bcs == [] ==> Ends(bcs, 0, max) == [])
    ensures bcs != [] ==> Ends(bcs, 0, max) == [] + LateEnds(bcs, 0, 1, max) && Sum(bcs, 0, 1) == bcs[0].length
  {
    if bcs != [] {
      assert Sum(bcs, 0, 0) == 0;
    }
  }

  lemma LateStep(bcs: seq<Bc>, i: nat, k: nat, max: nat)
    requires i < k < |bcs|
    ensures LateEnds(bcs, i, k, max) == if Joins(bcs, i, k, max) then LateEnds(bcs, i, k + 1, max)
                                        else [k] + LateEnds(bcs, k, k + 1, max)
    ensures Sum(bcs, 0, k + 1) == Sum(bcs, 0, k) + bcs[k].length
  {
  }

  lemma Snoc(bcs: seq<Bc>, i: nat, k: nat)
    requires i < k < |bcs|
    ensures bcs[i..k] + [bcs[k]] == bcs[i..k + 1] && [] + [bcs[k]] == bcs[k..k + 1]
    ensures bcs[i..k][|bcs[i..k]| - 1] == bcs[k - 1]
  {
  }

  lemma Regroup(a: seq<nat>, k: nat, b: seq<nat>)
    ensures a + ([k] + b) == (a + [k]) + b
  {
  }

  lemma LateDone(bcs: seq<Bc>, i: nat, max: nat)
    requires i < |bcs|
    ensures LateEnds(bcs, i, |bcs|, max) == [|bcs|]
  {
  }
}
