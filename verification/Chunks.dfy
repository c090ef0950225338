/**
  Chunks of a file held in the per-file cache.

  The cache keeps an ordered map from file offset to chunk.  Here the map is the sequence of its
  chunks in ascending order of offset: a map iterator is an index and `end()` is the length.
  Every chunk in the map has exactly one buffer (membuf) and agrees with it on offset and length,
  so the buffer's state is kept inside the chunk.
 */
module Chunks {

  newtype byte = x: int | 0 <= x < 256

  const MAX_FILE_SIZE: nat := 50_000 * 100 * 1024 * 1024
  const BAD_OFFSET: nat := 0xFFFF_FFFF_FFFF_FFFF

  /** A buffer: its allocation, its state bits and the number of users that may do IO on it. */
  datatype Membuf = Membuf(
    initialOffset: nat,
    buffer: seq<byte>,
    uptodate: bool,
    locked: bool,
    dirty: bool,
    flushing: bool,
    commitPending: bool,
    truncated: bool,
    inuse: nat)

  datatype Chunk = Chunk(offset: nat, length: nat, bufferOffset: nat, mb: Membuf) {
    function End(): nat {
      offset + length
    }

    /** Does the chunk cache the byte at file offset o? */
    predicate Holds(o: nat) {
      offset <= o < End()
    }

    /** Does the chunk cache some byte of [lo, hi)? */
    predicate Meets(lo: nat, hi: nat) {
      offset < hi && lo < End()
    }

    predicate SafeToRelease() {
      mb.inuse == 0 && !mb.dirty && !mb.commitPending
    }

    predicate NeedsFlush() {
      mb.dirty && !mb.flushing
    }

    /** The chunk is a non-empty window of its buffer, placed where the buffer was allocated. */
    predicate Ok() {
      && 0 < length
      && End() <= MAX_FILE_SIZE
      && mb.initialOffset + bufferOffset == offset
      && bufferOffset + length <= |mb.buffer|
    }

    /** What the state bits promise about each other at any time. */
    predicate FlagsOk() {
      && (mb.dirty ==> mb.uptodate)
      && (mb.commitPending ==> mb.uptodate && !mb.dirty && !mb.flushing)
      && (mb.flushing ==> mb.locked && 0 < mb.inuse)
    }

    /** The cached byte for file offset o. */
    function At(o: nat): byte
      requires Ok() && Holds(o)
    {
      mb.buffer[bufferOffset + (o - offset)]
    }
  }

  /** What a caller of get() receives: a window on a chunk of the map. */
  datatype Piece = Piece(offset: nat, length: nat, bufferOffset: nat, isWhole: bool, isNew: bool) {
    function End(): nat {
      offset + length
    }
  }

  ghost predicate AllOk(cs: seq<Chunk>) {
    forall i :: 0 <= i < |cs| ==> cs[i].Ok()
  }

  ghost predicate Sorted(cs: seq<Chunk>) {
    forall i, j :: 0 <= i < j < |cs| ==> cs[i].End() <= cs[j].offset
  }

  /** The chunk map: proper chunks, ascending and disjoint. */
  ghost predicate Wf(cs: seq<Chunk>) {
    AllOk(cs) && Sorted(cs)
  }

  /** No chunk starts before n. */
  ghost predicate StartsAt(cs: seq<Chunk>, n: nat) {
    forall i :: 0 <= i < |cs| ==> n <= cs[i].offset
  }

  lemma WfCons(c: Chunk, cs: seq<Chunk>)
    requires c.Ok() && Wf(cs) && StartsAt(cs, c.End())
    ensures Wf([c] + cs) && StartsAt([c] + cs, c.offset)
  {
  }

  /** Disjoint chunks: a byte has one holder. */
  lemma OneHolder(cs: seq<Chunk>, i: nat, j: nat, o: nat)
    requires Wf(cs) && i < |cs| && j < |cs| && cs[i].Holds(o) && cs[j].Holds(o)
    ensures i == j
  {
  }

  lemma UpdateWf(cs: seq<Chunk>, i: nat, d: Chunk)
    requires Wf(cs) && i < |cs| && d.Ok() && d.offset == cs[i].offset && d.length == cs[i].length
    ensures Wf(cs[i := d])
  {
  }

  ghost predicate AllFlags(cs: seq<Chunk>) {
    forall i :: 0 <= i < |cs| ==> cs[i].FlagsOk()
  }

  ghost predicate Cached(cs: seq<Chunk>, o: nat) {
    exists i :: 0 <= i < |cs| && cs[i].Holds(o)
  }

  function Min(a: nat, b: nat): nat {
    if a < b then a else b
  }

  function Max(a: nat, b: nat): nat {
    if a < b then b else a
  }

  /** A brand new chunk for [lo, hi); its buffer holds whatever the allocator left there. */
  function NewChunk(lo: nat, hi: nat, junk: nat -> byte): Chunk
    requires lo <= hi
  {
    Chunk(lo, hi - lo, 0,
          Membuf(lo, seq(hi - lo, i requires 0 <= i => junk(lo + i)),
                 false, false, false, false, false, false, 0))
  }

  /** set_inuse() */
  function Use(c: Chunk): Chunk {
    c.(mb := c.mb.(inuse := c.mb.inuse + 1))
  }

  /** Index of the first chunk whose offset is at least o (std::map::lower_bound). */
  method LowerBound(cs: seq<Chunk>, o: nat) returns (it: nat)
    requires Wf(cs)
    ensures it <= |cs|
    ensures forall i :: 0 <= i < it ==> cs[i].offset < o
    ensures forall i :: it <= i < |cs| ==> o <= cs[i].offset
  {
    it := 0;
    while it < |cs| && cs[it].offset < o
      invariant it <= |cs|
      invariant forall i :: 0 <= i < it ==> cs[i].offset < o
    {
      it := it + 1;
    }
  }
}
