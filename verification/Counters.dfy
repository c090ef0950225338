/** The running counters of a cache and the sums over its buffers that they stand for. */
module Counters {
  import opened Chunks

  datatype Stats = Stats(
    chunks: int,
    cached: int,
    alloc: int,
    dirty: int,
    flushing: int,
    commitPending: int,
    uptodate: int,
    inuse: int,
    locked: int)
  {
    function Plus(s: Stats): Stats {
      Stats(chunks + s.chunks, cached + s.cached, alloc + s.alloc, dirty + s.dirty, flushing + s.flushing,
            commitPending + s.commitPending, uptodate + s.uptodate, inuse + s.inuse, locked + s.locked)
    }

    function Minus(s: Stats): Stats {
      Stats(chunks - s.chunks, cached - s.cached, alloc - s.alloc, dirty - s.dirty, flushing - s.flushing,
            commitPending - s.commitPending, uptodate - s.uptodate, inuse - s.inuse, locked - s.locked)
    }
  }

  const ZERO := Stats(0, 0, 0, 0, 0, 0, 0, 0, 0)

  function If(b: bool, n: int): int {
    if b then n else 0
  }

  /** What one buffer adds to the counters that are kept per buffer. */
  function OfBuffer(c: Chunk): Stats {
    Stats(0, 0, |c.mb.buffer|, If(c.mb.dirty, c.length), If(c.mb.flushing, c.length),
          If(c.mb.commitPending, c.length), If(c.mb.uptodate, c.length), c.mb.inuse * c.length,
          If(c.mb.locked, c.length))
  }

  /** A chunk of the map also counts as a chunk and as cached bytes. */
  function OfChunk(c: Chunk): Stats {
    OfBuffer(c).(chunks := 1, cached := c.length)
  }

  function Tally(cs: seq<Chunk>): Stats {
    if cs == [] then ZERO else OfChunk(cs[0]).Plus(Tally(cs[1..]))
  }

  /** The sum over buffers that have left the map but are still referenced by some user. */
  function TallyDetached(ds: seq<Chunk>): Stats {
    if ds == [] then ZERO else OfBuffer(ds[0]).Plus(TallyDetached(ds[1..]))
  }

  lemma PlusLaws(a: Stats, b: Stats, c: Stats)
    ensures a.Plus(b).Plus(c) == a.Plus(b.Plus(c)) && a.Plus(b).Plus(c) == a.Plus(c).Plus(b)
    ensures a.Plus(ZERO) == a && ZERO.Plus(a) == a
    ensures a.Plus(b).Minus(b) == a && a.Minus(b).Plus(b) == a
  {
  }

  lemma {:induction false} TallyConcat(a: seq<Chunk>, b: seq<Chunk>)
    ensures Tally(a + b) == Tally(a).Plus(Tally(b))
  {
    hide OfChunk, Stats.Plus;
    if a == [] {
      assert a + b == b;
      PlusLaws(Tally(b), ZERO, ZERO);
    } else {
      TallyConcat(a[1..], b);
      assert (a + b)[1..] == a[1..] + b;
      PlusLaws(OfChunk(a[0]), Tally(a[1..]), Tally(b));
    }
  }

  lemma {:induction false} DetachedConcat(a: seq<Chunk>, b: seq<Chunk>)
    ensures TallyDetached(a + b) == TallyDetached(a).Plus(TallyDetached(b))
  {
    hide OfBuffer, Stats.Plus;
    if a == [] {
      assert a + b == b;
      PlusLaws(TallyDetached(b), ZERO, ZERO);
    } else {
      DetachedConcat(a[1..], b);
      assert (a + b)[1..] == a[1..] + b;
      PlusLaws(OfBuffer(a[0]), TallyDetached(a[1..]), TallyDetached(b));
    }
  }

  lemma TallyOne(c: Chunk)
    ensures Tally([c]) == OfChunk(c) && TallyDetached([c]) == OfBuffer(c)
  {
    assert [c][1..] == [];
  }

  lemma TallyInsert(cs: seq<Chunk>, at: nat, c: Chunk)
    requires at <= |cs|
    ensures Tally(cs[..at] + [c] + cs[at..]) == Tally(cs).Plus(OfChunk(c))
  {
    hide OfChunk, Tally, Stats.Plus;
    TallyConcat(cs[..at] + [c], cs[at..]);
    TallyConcat(cs[..at], [c]);
    TallyConcat(cs[..at], cs[at..]);
    TallyOne(c);
    assert cs == cs[..at] + cs[at..];
    PlusLaws(Tally(cs[..at]), OfChunk(c), Tally(cs[at..]));
  }

  lemma TallyErase(cs: seq<Chunk>, at: nat)
    requires at < |cs|
    ensures Tally(cs[..at] + cs[at + 1..]) == Tally(cs).Minus(OfChunk(cs[at]))
  {
    hide OfChunk, Tally, Stats.Plus, Stats.Minus;
    var rest := cs[..at] + cs[at + 1..];
    assert rest[..at] + [cs[at]] + rest[at..] == cs;
    TallyInsert(rest, at, cs[at]);
    PlusLaws(Tally(rest), OfChunk(cs[at]), ZERO);
  }

  lemma TallyUpdate(cs: seq<Chunk>, at: nat, c: Chunk)
    requires at < |cs|
    ensures Tally(cs[at := c]) == Tally(cs).Minus(OfChunk(cs[at])).Plus(OfChunk(c))
  {
    hide OfChunk, Tally, Stats.Plus, Stats.Minus;
    var rest := cs[..at] + cs[at + 1..];
    TallyErase(cs, at);
    TallyInsert(rest, at, c);
    assert rest[..at] + [c] + rest[at..] == cs[at := c];
  }

  lemma DetachedErase(ds: seq<Chunk>, at: nat)
    requires at < |ds|
    ensures TallyDetached(ds[..at] + ds[at + 1..]) == TallyDetached(ds).Minus(OfBuffer(ds[at]))
  {
    hide OfBuffer, TallyDetached, Stats.Plus, Stats.Minus;
    DetachedConcat(ds[..at], ds[at + 1..]);
    DetachedConcat(ds[..at] + [ds[at]], ds[at + 1..]);
    DetachedConcat(ds[..at], [ds[at]]);
    TallyOne(ds[at]);
    assert ds == ds[..at] + [ds[at]] + ds[at + 1..];
    PlusLaws(TallyDetached(ds[..at]), OfBuffer(ds[at]), TallyDetached(ds[at + 1..]));
    PlusLaws(TallyDetached(ds[..at]).Plus(TallyDetached(ds[at + 1..])), OfBuffer(ds[at]), ZERO);
  }

  lemma DetachedUpdate(ds: seq<Chunk>, at: nat, c: Chunk)
    requires at < |ds|
    ensures TallyDetached(ds[at := c]) == TallyDetached(ds).Minus(OfBuffer(ds[at])).Plus(OfBuffer(c))
  {
    hide OfBuffer, TallyDetached, Stats.Plus, Stats.Minus;
    var ds' := ds[at := c];
    DetachedErase(ds, at);
    DetachedErase(ds', at);
    assert ds'[..at] + ds'[at + 1..] == ds[..at] + ds[at + 1..];
    PlusLaws(TallyDetached(ds'), OfBuffer(c), ZERO);
  }

  lemma DetachedAppend(ds: seq<Chunk>, c: Chunk)
    ensures TallyDetached(ds + [c]) == TallyDetached(ds).Plus(OfBuffer(c))
  {
    DetachedConcat(ds, [c]);
    TallyOne(c);
  }

  // ---------------------------------------------------------------- counter updates as the operations make them

  /** set_inuse() */
  function AddInuse(s: Stats, length: nat): Stats {
    s.(inuse := s.inuse + length)
  }

  /** A chunk enters the map, its buffer freshly allocated and in use once. */
  function AddChunk(s: Stats, length: nat): Stats {
    s.(alloc := s.alloc + length, inuse := s.inuse + length,
       chunks := s.chunks + 1, cached := s.cached + length)
  }

  /** trim() and the matching drop in cached bytes. */
  function SubTrim(s: Stats, mb: Membuf, n: nat): Stats {
    s.(cached := s.cached - n, uptodate := s.uptodate - If(mb.uptodate, n), dirty := s.dirty - If(mb.dirty, n),
       locked := s.locked - If(mb.locked, n))
  }

  /** A chunk leaves the map; its buffer lives on till its last user drops it. */
  function SubChunk(s: Stats, length: nat): Stats {
    s.(chunks := s.chunks - 1, cached := s.cached - length)
  }

  lemma UseCounts(c: Chunk)
    ensures OfChunk(Use(c)) == OfChunk(c).(inuse := OfChunk(c).inuse + c.length)
  {
    assert (c.mb.inuse + 1) * c.length == c.mb.inuse * c.length + c.length;
  }
}
