/**
  truncate(): cut the cache of a file off at a given length while readers go on reading.

  Step 1 takes an inuse count on every chunk that reaches past the cut, step 2 locks those that no
  reader uses, step 3 cuts what it has locked and gives everything back.  Readers act before every
  single lock and every single cut.  What they hold is an input: a script that says, for every point
  in time and every chunk, how many readers use it and whether one of them wants its lock.  What else
  they may do to a chunk is written down in `ReaderMay`.
 */
module Truncate {
  import opened Chunks
  import opened Counters
  import opened Cache
  import opened ChunkCache
  import Get
  import Release

  /** What the truncate holds on a buffer. */
  datatype Own = Free | InUse | Locked

  /** What others hold on it. */
  datatype Other = Other(users: nat, locks: bool)

  predicate Holder(c: Chunk, own: Own, x: Other) {
    && c.mb.inuse == x.users + (if own.Free? then 0 else 1)
    && (c.mb.locked <==> x.locks || own.Locked?) && !(x.locks && own.Locked?)
  }

  /** Every inuse count and every lock has an owner. */
  ghost predicate Holders(m: seq<Chunk>, own: seq<Own>, xs: seq<Other>) {
    |own| == |xs| == |m| && forall i :: 0 <= i < |m| ==> Holder(m[i], own[i], xs[i])
  }

  /** A reader may use, lock and fill a chunk, but not change data that is uptodate, nor a chunk locked by another. */
  predicate ReaderMay(c: Chunk, d: Chunk, own: Own) {
    && d.offset == c.offset && d.length == c.length && d.bufferOffset == c.bufferOffset
    && d.mb.initialOffset == c.mb.initialOffset && |d.mb.buffer| == |c.mb.buffer|
    && d.mb.dirty == c.mb.dirty && d.mb.flushing == c.mb.flushing && d.mb.commitPending == c.mb.commitPending
    && d.mb.truncated == c.mb.truncated
    && (c.mb.uptodate ==> d.mb.uptodate && d.mb.buffer == c.mb.buffer)
    && (own.Locked? ==> d == c.(mb := c.mb.(inuse := d.mb.inuse)))
  }

  ghost predicate ReadersMay(m: seq<Chunk>, m': seq<Chunk>, own: seq<Own>) {
    |m'| == |m| == |own| && forall i :: 0 <= i < |m| ==> ReaderMay(m[i], m'[i], own[i])
  }

  /** What readers hold at a point in time on the chunk with a given key, and whether they fill chunks at all. */
  datatype Script = Script(at: (nat, nat) -> Other, fills: bool)

  /** A reader that wants a lock held by the truncate waits for it. */
  function Acted(x: Other, own: Own): Other {
    if own.Locked? then x.(locks := false) else x
  }

  /** The first g chunks are uptodate as they were. */
  ghost predicate SameUpto(m: seq<Chunk>, m': seq<Chunk>, g: nat) {
    g <= |m| && g <= |m'| && forall i :: 0 <= i < g ==> m'[i].mb.uptodate == m[i].mb.uptodate
  }

  /** Sooner or later the lock is free. */
  ghost predicate LetsGo(holds: Script, t: nat, k: nat) {
    exists t': nat :: t <= t' && !holds.at(t', k).locks
  }

  ghost predicate Fair(holds: Script) {
    forall t: nat, k: nat :: LetsGo(holds, t, k)
  }

  /** The right edge of the last uptodate chunk; 0 if there is none. */
  ghost predicate RightEdge(m: seq<Chunk>, n: nat) {
    InSize(m, n) && (n == 0 || exists k :: 0 <= k < |m| && m[k].mb.uptodate && m[k].End() == n)
  }

  /** No write or commit of the chunk is under way, and no truncate has cut it off before. */
  predicate Quiet(c: Chunk) {
    !c.mb.flushing && !c.mb.commitPending && !c.mb.truncated
  }

  ghost predicate AllQuiet(m: seq<Chunk>) {
    forall i :: 0 <= i < |m| ==> Quiet(m[i])
  }

  function HeldAs(c: Chunk, n: nat, l: bool): Chunk {
    c.(mb := c.mb.(inuse := n, locked := l))
  }

  /** Bring the inuse count of a chunk to n, one user coming or going at a time. */
  method BringInuse(b: BytesChunkCache, i: nat, n: nat)
    requires b.Valid() && i < |b.chunkmap| && Quiet(b.chunkmap[i])
    modifies b`chunkmap, b`stats, b`cacheSize
    ensures b.Valid() && b.cacheSize == old(b.cacheSize)
    ensures b.chunkmap == old(b.chunkmap)[i := HeldAs(old(b.chunkmap)[i], n, old(b.chunkmap)[i].mb.locked)]
  {
    hide BytesChunkCache.Valid;
    ghost var c := b.chunkmap[i];
    while b.chunkmap[i].mb.inuse < n
      invariant b.Valid() && b.cacheSize == old(b.cacheSize) && |b.chunkmap| == |old(b.chunkmap)|
      invariant b.chunkmap == old(b.chunkmap)[i := HeldAs(c, b.chunkmap[i].mb.inuse, c.mb.locked)]
      decreases n - b.chunkmap[i].mb.inuse
    {
      b.Flag(i, SetInuse);
    }
    while n < b.chunkmap[i].mb.inuse
      invariant b.Valid() && b.cacheSize == old(b.cacheSize) && |b.chunkmap| == |old(b.chunkmap)|
      invariant b.chunkmap == old(b.chunkmap)[i := HeldAs(c, b.chunkmap[i].mb.inuse, c.mb.locked)]
      invariant n <= b.chunkmap[i].mb.inuse
      decreases b.chunkmap[i].mb.inuse - n
    {
      b.Flag(i, ClearInuse);
    }
  }

  /** Readers come and go on one chunk till n use it and, if l, one has it locked. */
  method Act(b: BytesChunkCache, i: nat, n: nat, l: bool)
    requires b.Valid() && i < |b.chunkmap| && Quiet(b.chunkmap[i])
    modifies b`chunkmap, b`stats, b`cacheSize
    ensures b.Valid() && b.cacheSize == old(b.cacheSize)
    ensures b.chunkmap == old(b.chunkmap)[i := HeldAs(old(b.chunkmap)[i], n, l)]
  {
    hide BytesChunkCache.Valid;
    b.Flag(i, SetInuse);
    if b.chunkmap[i].mb.locked && !l {
      b.Flag(i, ClearLocked);
    } else if !b.chunkmap[i].mb.locked && l {
      b.Flag(i, Lock);
    }
    BringInuse(b, i, n);
  }

  /**
    Readers act: afterwards they hold what the script says for time t.  Beyond that they may do what
    `ReaderMay` allows; when they fill a chunk the cache size follows.
   */
  method Readers(b: BytesChunkCache, own: seq<Own>, holds: Script, t: nat, ghost xs: seq<Other>)
    returns (ghost xs': seq<Other>)
    requires b.Valid() && AllQuiet(b.chunkmap) && Holders(b.chunkmap, own, xs)
    modifies b`chunkmap, b`stats, b`cacheSize
    ensures b.Valid() && Holders(b.chunkmap, own, xs') && ReadersMay(old(b.chunkmap), b.chunkmap, own)
    ensures forall i :: 0 <= i < |xs'| ==> xs'[i] == Acted(holds.at(t, b.chunkmap[i].offset), own[i])
    ensures RightEdge(old(b.chunkmap), old(b.cacheSize)) ==> RightEdge(b.chunkmap, b.cacheSize)
    ensures !holds.fills ==> SameUpto(old(b.chunkmap), b.chunkmap, |b.chunkmap|)
  {
    hide BytesChunkCache.Valid;
    xs' := xs;
    var i: nat := 0;
    ghost var m := b.chunkmap;
    while i < |b.chunkmap|
      invariant i <= |b.chunkmap| == |m| == |own| == |xs'|
      invariant b.Valid() && b.cacheSize == old(b.cacheSize)
      invariant forall k :: 0 <= k < |m| ==> b.chunkmap[k] == HeldAs(m[k], b.chunkmap[k].mb.inuse, b.chunkmap[k].mb.locked)
      invariant forall k :: i <= k < |m| ==> b.chunkmap[k] == m[k] && xs'[k] == xs[k]
      invariant forall k :: 0 <= k < i ==> xs'[k] == Acted(holds.at(t, m[k].offset), own[k])
      invariant forall k :: 0 <= k < |m| ==> Holder(b.chunkmap[k], own[k], xs'[k])
      decreases |m| - i
    {
      var x := Acted(holds.at(t, b.chunkmap[i].offset), own[i]);
      Act(b, i, x.users + (if own[i].Free? then 0 else 1), x.locks || own[i].Locked?);
      xs' := xs'[i := x];
      i := i + 1;
    }
    SameEdge(m, b.chunkmap, b.cacheSize);
  }

  lemma SameEdge(m: seq<Chunk>, m': seq<Chunk>, n: nat)
    requires |m'| == |m| && forall k :: 0 <= k < |m| ==> m'[k].mb.uptodate == m[k].mb.uptodate && m'[k].End() == m[k].End()
    ensures RightEdge(m, n) ==> RightEdge(m', n)
  {
    if RightEdge(m, n) && n != 0 {
      var k :| 0 <= k < |m| && m[k].mb.uptodate && m[k].End() == n;
      assert m'[k].mb.uptodate && m'[k].End() == n;
    }
  }

  /** set_locked() waits: readers act till the chunk is not locked any more. */
  method WaitForLock(b: BytesChunkCache, i: nat, own: seq<Own>, holds: Script, t0: nat, ghost xs0: seq<Other>)
    returns (t: nat, ghost xs: seq<Other>)
    requires b.Valid() && AllQuiet(b.chunkmap) && Holders(b.chunkmap, own, xs0) && i < |b.chunkmap|
    requires own[i].InUse? && Fair(holds)
    modifies b`chunkmap, b`stats, b`cacheSize
    ensures b.Valid() && Holders(b.chunkmap, own, xs) && ReadersMay(old(b.chunkmap), b.chunkmap, own)
    ensures !b.chunkmap[i].mb.locked && t0 <= t
    ensures !holds.fills ==> SameUpto(old(b.chunkmap), b.chunkmap, |b.chunkmap|)
  {
    hide BytesChunkCache.Valid;
    t, xs := t0, xs0;
    ghost var m := b.chunkmap;
    assert LetsGo(holds, t0 + 1, m[i].offset);
    ghost var free: nat :| t0 + 1 <= free && !holds.at(free, m[i].offset).locks;
    ReadersNothing(m, own);
    while b.chunkmap[i].mb.locked
      invariant b.Valid() && Holders(b.chunkmap, own, xs) && ReadersMay(m, b.chunkmap, own) && t0 <= t
      invariant b.chunkmap[i].mb.locked ==> t < free
      invariant !holds.fills ==> SameUpto(m, b.chunkmap, |b.chunkmap|)
      invariant AllQuiet(b.chunkmap)
      decreases free - t
    {
      label Waiting:
      t := t + 1;
      xs := Readers(b, own, holds, t, xs);
      ReadersTwice(m, old@Waiting(b.chunkmap), b.chunkmap, own);
      assert b.chunkmap[i].offset == m[i].offset && xs[i] == holds.at(t, m[i].offset);
    }
  }

  lemma ReadersNothing(m: seq<Chunk>, own: seq<Own>)
    requires |own| == |m|
    ensures ReadersMay(m, m, own)
  {
  }

  lemma ReadersTwice(m: seq<Chunk>, m1: seq<Chunk>, m2: seq<Chunk>, own: seq<Own>)
    requires ReadersMay(m, m1, own) && ReadersMay(m1, m2, own)
    ensures ReadersMay(m, m2, own) && (AllQuiet(m1) ==> AllQuiet(m2))
  {
    forall i | 0 <= i < |m| ensures ReaderMay(m[i], m2[i], own[i]) {
      assert ReaderMay(m[i], m1[i], own[i]) && ReaderMay(m1[i], m2[i], own[i]);
    }
  }

  // ---------------------------------------------------------------- what has become of the map

  /** The chunk is still there, shortened at most to the cut, and what was uptodate shows the same data. */
  predicate Survives(c: Chunk, d: Chunk, cut: nat) {
    && d.offset == c.offset && d.bufferOffset == c.bufferOffset
    && d.mb.initialOffset == c.mb.initialOffset && |d.mb.buffer| == |c.mb.buffer|
    && (d.length == c.length || (c.offset < cut < c.End() && d.End() == cut))
    && (c.mb.uptodate ==> d.mb.uptodate && d.mb.buffer == c.mb.buffer)
    && d.mb.dirty == c.mb.dirty && d.mb.flushing == c.mb.flushing && d.mb.commitPending == c.mb.commitPending
    && d.mb.truncated == c.mb.truncated
  }

  /** The g chunks that start before the cut have survived; what else is left are old chunks past it. */
  ghost predicate CutOff(cs: seq<Chunk>, m: seq<Chunk>, g: nat, cut: nat) {
    && g <= |cs| && g <= |m|
    && (forall i :: 0 <= i < g ==> cs[i].offset < cut && Survives(cs[i], m[i], cut))
    && (forall i :: g <= i < |cs| ==> cut <= cs[i].offset)
    && (forall i :: g <= i < |m| ==> Leftover(cs, m[i], g, cut))
  }

  ghost predicate Leftover(cs: seq<Chunk>, d: Chunk, g: nat, cut: nat) {
    exists k :: g <= k < |cs| && cut <= cs[k].offset && Survives(cs[k], d, cut)
  }

  lemma ReadersKeepCut(cs: seq<Chunk>, m: seq<Chunk>, m': seq<Chunk>, own: seq<Own>, g: nat, cut: nat)
    requires CutOff(cs, m, g, cut) && ReadersMay(m, m', own)
    ensures CutOff(cs, m', g, cut) && (AllQuiet(m) ==> AllQuiet(m')) && Release.Bytes(m') == Release.Bytes(m)
  {
    SameBytes(m, m', |m|);
  }

  lemma {:induction false} SameBytes(m: seq<Chunk>, m': seq<Chunk>, n: nat)
    requires n <= |m| == |m'| && forall i :: 0 <= i < n ==> m[i].length == m'[i].length
    ensures Release.BytesTo(m, n) == Release.BytesTo(m', n)
  {
    if n != 0 { SameBytes(m, m', n - 1); }
  }

  /** Bytes below the cut that were cached and uptodate show what they showed, when the cut is complete. */
  lemma CutKeepsContent(cs: seq<Chunk>, m: seq<Chunk>, g: nat, cut: nat, k: nat, o: nat)
    requires Wf(cs) && Wf(m) && CutOff(cs, m, g, cut) && k < |cs| && cs[k].Holds(o) && o < cut
    ensures k < |m| && m[k].Holds(o)
    ensures cs[k].mb.uptodate ==> m[k].mb.uptodate && m[k].At(o) == cs[k].At(o)
  {
  }

  // ---------------------------------------------------------------- the steps

  lemma OneFlag(cs: seq<Chunk>, m: seq<Chunk>, i: nat, d: Chunk, g: nat, cut: nat)
    requires CutOff(cs, m, g, cut) && i < |m| && ReaderMay(m[i], d, Free)
    ensures CutOff(cs, m[i := d], g, cut) && (AllQuiet(m) ==> AllQuiet(m[i := d]))
    ensures Release.Bytes(m[i := d]) == Release.Bytes(m)
  {
    SameBytes(m, m[i := d], |m|);
  }

  /** Where the truncate has come to: the map as cut so far, and who holds what. */
  ghost predicate At(cs: seq<Chunk>, m: seq<Chunk>, own: seq<Own>, xs: seq<Other>, g: nat, cut: nat) {
    CutOff(cs, m, g, cut) && AllQuiet(m) && Holders(m, own, xs)
  }

  lemma AtFlag(cs: seq<Chunk>, m: seq<Chunk>, own: seq<Own>, xs: seq<Other>, g: nat, cut: nat, i: nat, op: Op, o: Own)
    requires At(cs, m, own, xs, g, cut) && i < |m| && Allowed(op, m[i].mb)
    requires || (op == SetInuse && own[i].Free? && o == InUse)
             || (op == ClearInuse && own[i].InUse? && o == Free)
             || (op == Lock && own[i].InUse? && o == Locked)
             || (op == ClearLocked && own[i].Locked? && o == InUse)
    ensures var d := m[i].(mb := Apply(op, m[i].mb));
            At(cs, m[i := d], own[i := o], xs, g, cut) && Release.Bytes(m[i := d]) == Release.Bytes(m)
  {
    OneFlag(cs, m, i, m[i].(mb := Apply(op, m[i].mb)), g, cut);
  }

  lemma AtReaders(cs: seq<Chunk>, m: seq<Chunk>, m': seq<Chunk>, own: seq<Own>, xs: seq<Other>, xs': seq<Other>,
                  g: nat, cut: nat)
    requires At(cs, m, own, xs, g, cut) && ReadersMay(m, m', own) && Holders(m', own, xs')
    ensures At(cs, m', own, xs', g, cut) && Release.Bytes(m') == Release.Bytes(m)
  {
    ReadersKeepCut(cs, m, m', own, g, cut);
  }

  ghost predicate SameEnds(m: seq<Chunk>, m': seq<Chunk>) {
    |m| == |m'| && forall k :: 0 <= k < |m| ==> m[k].offset == m'[k].offset && m[k].End() == m'[k].End()
  }

  /** First index of a chunk that reaches past the cut; the chunks before it end at or before the cut. */
  ghost predicate Affected(cs: seq<Chunk>, cut: nat, f: nat) {
    && f <= |cs|
    && (forall i :: 0 <= i < f ==> cs[i].End() <= cut)
    && (forall i :: f <= i < |cs| ==> cut < cs[i].End())
  }

  method FirstAffected(m: seq<Chunk>, cut: nat) returns (f: nat, ghost g: nat)
    requires Wf(m) && AllQuiet(m)
    ensures Affected(m, cut, f) && CutOff(m, m, g, cut) && f <= g <= f + 1
  {
    var it := LowerBound(m, cut);
    g := it;
    f := it;
    if it != 0 && cut < m[it - 1].End() {
      f := it - 1;
    }
  }

  /** Step 1: take an inuse count on every affected chunk. */
  method TakeInuse(b: BytesChunkCache, f: nat, ghost cs: seq<Chunk>, ghost xs: seq<Other>, ghost g: nat, ghost cut: nat)
    returns (own: seq<Own>)
    requires b.Valid() && f <= |b.chunkmap|
    requires At(cs, b.chunkmap, seq(|b.chunkmap|, _ => Free), xs, g, cut)
    modifies b`chunkmap, b`stats, b`cacheSize
    ensures b.Valid() && |b.chunkmap| == |old(b.chunkmap)| == |own| && At(cs, b.chunkmap, own, xs, g, cut)
    ensures Release.Bytes(b.chunkmap) == Release.Bytes(old(b.chunkmap)) && SameEnds(old(b.chunkmap), b.chunkmap)
    ensures forall k :: 0 <= k < |own| ==> own[k] == if k < f then Free else InUse
    ensures SameUpto(old(b.chunkmap), b.chunkmap, |b.chunkmap|)
  {
    hide BytesChunkCache.Valid, At, Release.Bytes;
    own := seq(|b.chunkmap|, _ => Free);
    var i := f;
    while i < |b.chunkmap|
      invariant f <= i <= |b.chunkmap| == |old(b.chunkmap)| == |own|
      invariant b.Valid() && At(cs, b.chunkmap, own, xs, g, cut)
      invariant Release.Bytes(b.chunkmap) == Release.Bytes(old(b.chunkmap)) && SameEnds(old(b.chunkmap), b.chunkmap)
      invariant forall k :: 0 <= k < |own| ==> own[k] == if f <= k < i then InUse else Free
      invariant SameUpto(old(b.chunkmap), b.chunkmap, |b.chunkmap|)
    {
      AtFlag(cs, b.chunkmap, own, xs, g, cut, i, SetInuse, InUse);
      b.Flag(i, SetInuse);
      own := own[i := InUse];
      i := i + 1;
    }
  }

  lemma AtFacts(cs: seq<Chunk>, m: seq<Chunk>, own: seq<Own>, xs: seq<Other>, g: nat, cut: nat, i: nat)
    requires At(cs, m, own, xs, g, cut) && i < |m|
    ensures |own| == |m| && Holder(m[i], own[i], xs[i]) && Quiet(m[i])
    ensures own[i].InUse? ==> 0 < m[i].mb.inuse
    ensures own[i].Locked? ==> 0 < m[i].mb.inuse && m[i].mb.locked
  {
  }

  /** The key of a chunk that reaches past the cut. */
  ghost predicate PastCut(cs: seq<Chunk>, cut: nat, key: nat) {
    exists k :: 0 <= k < |cs| && cs[k].offset == key && cut < cs[k].End()
  }

  /** No reader ever has anything to do with the chunk. */
  ghost predicate Alone(holds: Script, key: nat) {
    forall t: nat :: holds.at(t, key) == Other(0, false)
  }

  /** Nor with any other chunk that reaches past the cut. */
  ghost predicate Undisturbed(cs: seq<Chunk>, cut: nat, holds: Script) {
    forall key: nat :: PastCut(cs, cut, key) ==> Alone(holds, key)
  }

  /** How many of the first n chunks reach past the cut. */
  function Past(m: seq<Chunk>, cut: nat, n: nat): nat
    requires n <= |m|
  {
    if n == 0 then 0 else Past(m, cut, n - 1) + if cut < m[n - 1].End() then 1 else 0
  }

  /** How many of the first n chunks reach past the cut though the truncate has nothing to do with them any more. */
  function GivenUp(m: seq<Chunk>, own: seq<Own>, cut: nat, n: nat): nat
    requires n <= |m| == |own|
  {
    if n == 0 then 0 else GivenUp(m, own, cut, n - 1) + if own[n - 1].Free? && cut < m[n - 1].End() then 1 else 0
  }

  lemma {:induction false} NoneGivenUp(m: seq<Chunk>, own: seq<Own>, cut: nat, n: nat)
    requires n <= |m| == |own| && forall k :: 0 <= k < n ==> !own[k].Free? || m[k].End() <= cut
    ensures GivenUp(m, own, cut, n) == 0
  {
    if n != 0 { NoneGivenUp(m, own, cut, n - 1); }
  }

  lemma {:induction false} GivenUpSet(m: seq<Chunk>, m': seq<Chunk>, own: seq<Own>, i: nat, o: Own, cut: nat, n: nat)
    requires n <= |m| == |own| == |m'| && i < |m| && !own[i].Free?
    requires forall k :: 0 <= k < n && k != i ==> m'[k].End() == m[k].End()
    ensures GivenUp(m', own[i := o], cut, n)
            == GivenUp(m, own, cut, n) + if i < n && o.Free? && cut < m'[i].End() then 1 else 0
  {
    if n != 0 { GivenUpSet(m, m', own, i, o, cut, n - 1); }
  }

  lemma {:induction false} GivenUpSame(m: seq<Chunk>, m': seq<Chunk>, own: seq<Own>, cut: nat, n: nat)
    requires n <= |m| == |own| == |m'| && forall k :: 0 <= k < n ==> m'[k].End() == m[k].End()
    ensures GivenUp(m', own, cut, n) == GivenUp(m, own, cut, n)
  {
    if n != 0 { GivenUpSame(m, m', own, cut, n - 1); }
  }

  lemma {:induction false} GivenUpErased(m: seq<Chunk>, m': seq<Chunk>, own: seq<Own>, own': seq<Own>, p: nat, cut: nat, n: nat)
    requires n <= |m'| == |own'| && |m| == |own| == |m'| + 1 && p < |m| && !own[p].Free?
    requires forall k :: 0 <= k < |m'| ==> m'[k] == m[if k < p then k else k + 1] && own'[k] == own[if k < p then k else k + 1]
    ensures GivenUp(m', own', cut, n) == GivenUp(m, own, cut, if n <= p then n else n + 1)
  {
    if n != 0 { GivenUpErased(m, m', own, own', p, cut, n - 1); }
  }

  lemma {:induction false} AllGivenUp(m: seq<Chunk>, own: seq<Own>, cut: nat, n: nat)
    requires n <= |m| == |own| && forall k :: 0 <= k < n ==> own[k].Free?
    ensures GivenUp(m, own, cut, n) == Past(m, cut, n)
    ensures Past(m, cut, n) == 0 <==> forall k :: 0 <= k < n ==> m[k].End() <= cut
  {
    if n != 0 { AllGivenUp(m, own, cut, n - 1); }
  }

  /** Step 2, one chunk: skip it if a reader uses it, else lock it. */
  method LockOne(b: BytesChunkCache, i: nat, post: bool, own0: seq<Own>, holds: Script, t0: nat,
                 ghost cs: seq<Chunk>, ghost xs0: seq<Other>, ghost g: nat, ghost cut: nat)
    returns (own: seq<Own>, skipped: bool, t: nat, ghost xs: seq<Other>)
    requires b.Valid() && i < |b.chunkmap| && At(cs, b.chunkmap, own0, xs0, g, cut) && |own0| == |b.chunkmap|
    requires own0[i].InUse? && (!post ==> Fair(holds))
    modifies b`chunkmap, b`stats, b`cacheSize
    ensures b.Valid() && |b.chunkmap| == |old(b.chunkmap)| && At(cs, b.chunkmap, own, xs, g, cut)
    ensures Release.Bytes(b.chunkmap) == Release.Bytes(old(b.chunkmap)) && SameEnds(old(b.chunkmap), b.chunkmap)
    ensures own == own0[i := if skipped then Free else Locked]
    ensures skipped ==> !Alone(holds, old(b.chunkmap)[i].offset)
    ensures !holds.fills ==> SameUpto(old(b.chunkmap), b.chunkmap, |b.chunkmap|)
  {
    hide BytesChunkCache.Valid, At, Release.Bytes, Holders;
    AtHolders(cs, b.chunkmap, own0, xs0, g, cut);
    label Start:
    t := t0 + 1;
    xs := Readers(b, own0, holds, t, xs0);
    AtReaders(cs, old@Start(b.chunkmap), b.chunkmap, own0, xs0, xs, g, cut);
    AtFacts(cs, b.chunkmap, own0, xs, g, cut, i);
    AtHolders(cs, b.chunkmap, own0, xs, g, cut);
    if 1 < b.chunkmap[i].mb.inuse || (post && b.chunkmap[i].mb.locked) {
      AtFlag(cs, b.chunkmap, own0, xs, g, cut, i, ClearInuse, Free);
      b.Flag(i, ClearInuse);
      own, skipped := own0[i := Free], true;
      return;
    }
    if !post {
      label Waiting:
      ghost var xs1 := xs;
      t, xs := WaitForLock(b, i, own0, holds, t, xs);
      AtReaders(cs, old@Waiting(b.chunkmap), b.chunkmap, own0, xs1, xs, g, cut);
      AtFacts(cs, b.chunkmap, own0, xs, g, cut, i);
    }
    AtFlag(cs, b.chunkmap, own0, xs, g, cut, i, Lock, Locked);
    b.Flag(i, Lock);
    own, skipped := own0[i := Locked], false;
  }

  lemma AtHolders(cs: seq<Chunk>, m: seq<Chunk>, own: seq<Own>, xs: seq<Other>, g: nat, cut: nat)
    requires At(cs, m, own, xs, g, cut)
    ensures Holders(m, own, xs) && |own| == |xs| == |m| && AllQuiet(m)
  {
  }

  /** Step 2: lock the affected chunks that no reader uses. */
  method LockAll(b: BytesChunkCache, f: nat, post: bool, own0: seq<Own>, holds: Script, t0: nat,
                 ghost cs: seq<Chunk>, ghost xs0: seq<Other>, ghost g: nat, ghost cut: nat)
    returns (own: seq<Own>, skipped: nat, t: nat, ghost xs: seq<Other>)
    requires b.Valid() && f <= |b.chunkmap| == |own0| && At(cs, b.chunkmap, own0, xs0, g, cut)
    requires forall k :: 0 <= k < |own0| ==> own0[k] == if k < f then Free else InUse
    requires (forall k :: 0 <= k < |b.chunkmap| ==> (f <= k <==> cut < b.chunkmap[k].End())) && (!post ==> Fair(holds))
    modifies b`chunkmap, b`stats, b`cacheSize
    ensures b.Valid() && |b.chunkmap| == |old(b.chunkmap)| == |own| && At(cs, b.chunkmap, own, xs, g, cut)
    ensures Release.Bytes(b.chunkmap) == Release.Bytes(old(b.chunkmap)) && SameEnds(old(b.chunkmap), b.chunkmap)
    ensures forall k :: 0 <= k < |own| ==> !own[k].InUse? && (k < f ==> own[k].Free?)
    ensures skipped == GivenUp(b.chunkmap, own, cut, |own|)
    ensures forall k :: f <= k < |own| && own[k].Free? ==> !Alone(holds, b.chunkmap[k].offset)
    ensures !holds.fills ==> SameUpto(old(b.chunkmap), b.chunkmap, |b.chunkmap|)
  {
    hide BytesChunkCache.Valid, At, Release.Bytes, Alone, GivenUp;
    own, skipped, xs, t := own0, 0, xs0, t0;
    NoneGivenUp(b.chunkmap, own, cut, |own|);
    var i := f;
    while i < |b.chunkmap|
      invariant f <= i <= |b.chunkmap| == |old(b.chunkmap)| == |own|
      invariant b.Valid() && At(cs, b.chunkmap, own, xs, g, cut)
      invariant Release.Bytes(b.chunkmap) == Release.Bytes(old(b.chunkmap)) && SameEnds(old(b.chunkmap), b.chunkmap)
      invariant forall k :: i <= k < |own| ==> own[k] == InUse
      invariant forall k :: 0 <= k < i ==> !own[k].InUse? && (k < f ==> own[k].Free?)
      invariant skipped == GivenUp(b.chunkmap, own, cut, |own|)
      invariant forall k :: f <= k < i && own[k].Free? ==> !Alone(holds, b.chunkmap[k].offset)
      invariant !holds.fills ==> SameUpto(old(b.chunkmap), b.chunkmap, |b.chunkmap|)
      decreases |b.chunkmap| - i
    {
      var skip;
      ghost var before, m := own, b.chunkmap;
      own, skip, t, xs := LockOne(b, i, post, own, holds, t, cs, xs, g, cut);
      GivenUpSet(m, b.chunkmap, before, i, own[i], cut, |own|);
      if skip {
        skipped := skipped + 1;
      }
      i := i + 1;
    }
  }

  // ---------------------------------------------------------------- step 3

  lemma CutCounts(m: seq<Chunk>, i: nat, n: nat, others: Stats)
    requires i < |m| && n < m[i].length && m[i].mb.inuse == 0 && Quiet(m[i])
    ensures var d := m[i].(length := m[i].length - n);
            others.Plus(Tally(m[i := d])) == SubTrim(others.Plus(Tally(m)), m[i].mb, n)
  {
    TallyUpdate(m, i, m[i].(length := m[i].length - n));
  }

  lemma CutSound(m: seq<Chunk>, i: nat, n: nat, size: nat)
    requires Wf(m) && Sound(m, size) && i < |m| && n < m[i].length
    ensures var d := m[i].(length := m[i].length - n); Wf(m[i := d]) && Sound(m[i := d], size)
  {
  }

  lemma EraseSound(m: seq<Chunk>, i: nat, size: nat)
    requires Wf(m) && Sound(m, size) && i < |m|
    ensures Wf(m[..i] + m[i + 1..]) && Sound(m[..i] + m[i + 1..], size)
  {
    var r := m[..i] + m[i + 1..];
    forall k | 0 <= k < |r| ensures r[k] == m[if k < i then k else k + 1] {
    }
  }

  /** trim() from the right of a chunk that only the truncate uses. */
  method TrimRight(b: BytesChunkCache, i: nat, n: nat)
    requires b.Valid() && i < |b.chunkmap| && 0 < n < b.chunkmap[i].length
    requires b.chunkmap[i].mb.inuse == 1 && b.chunkmap[i].mb.locked && Quiet(b.chunkmap[i])
    modifies b`chunkmap, b`stats, b`cacheSize
    ensures b.Valid() && b.cacheSize == old(b.cacheSize)
    ensures b.chunkmap == old(b.chunkmap)[i := old(b.chunkmap)[i].(length := old(b.chunkmap)[i].length - n)]
  {
    hide Tally, TallyDetached, Stats.Plus, SubTrim, Sound, Wf, InSize;
    b.Flag(i, ClearInuse);
    CutCounts(b.chunkmap, i, n, TallyDetached(b.detached));
    CutSound(b.chunkmap, i, n, b.cacheSize);
    b.stats := SubTrim(b.stats, b.chunkmap[i].mb, n);
    b.chunkmap := b.chunkmap[i := b.chunkmap[i].(length := b.chunkmap[i].length - n)];
    b.Flag(i, SetInuse);
  }

  /** The buffer of a chunk that was cut off, when the truncate is done with it. */
  function LetGo(c: Chunk): Chunk {
    c.(mb := c.mb.(truncated := true, locked := false, inuse := 0))
  }

  /** Take a chunk out of the map that only the truncate uses; its buffer is marked truncated and let go. */
  method EraseTruncated(b: BytesChunkCache, i: nat)
    requires b.Valid() && i < |b.chunkmap|
    requires b.chunkmap[i].mb.inuse == 1 && b.chunkmap[i].mb.locked && Quiet(b.chunkmap[i])
    modifies b
    ensures b.Valid() && b.cacheSize == old(b.cacheSize)
    ensures b.chunkmap == old(b.chunkmap)[..i] + old(b.chunkmap)[i + 1..]
    ensures b.detached == old(b.detached) + [LetGo(old(b.chunkmap)[i])]
  {
    hide Tally, TallyDetached, Stats.Plus, SubChunk, Sound, Wf, InSize;
    b.Flag(i, SetTruncated);
    b.Flag(i, ClearLocked);
    b.Flag(i, ClearInuse);
    Release.CountErase(b.chunkmap, i, b.detached);
    EraseSound(b.chunkmap, i, b.cacheSize);
    LeaveSound(b.chunkmap, i, b.cacheSize);
    b.stats := SubChunk(b.stats, b.chunkmap[i].length);
    b.detached := b.detached + [b.chunkmap[i]];
    b.chunkmap := b.chunkmap[..i] + b.chunkmap[i + 1..];
  }

  lemma LeaveSound(m: seq<Chunk>, i: nat, size: nat)
    requires Wf(m) && Sound(m, size) && i < |m|
    ensures m[i].Ok() && m[i].FlagsOk()
  {
  }

  lemma {:induction false} BytesErased(m: seq<Chunk>, i: nat, n: nat)
    requires i < n <= |m|
    ensures Release.BytesTo(m[..i] + m[i + 1..], n - 1) == Release.BytesTo(m, n) - m[i].length
  {
    var r := m[..i] + m[i + 1..];
    if n == i + 1 {
      SamePrefix(r, m, i);
    } else {
      BytesErased(m, i, n - 1);
      assert r[n - 2] == m[n - 1];
    }
  }

  lemma {:induction false} SamePrefix(a: seq<Chunk>, c: seq<Chunk>, n: nat)
    requires n <= |a| && n <= |c| && forall k :: 0 <= k < n ==> a[k] == c[k]
    ensures Release.BytesTo(a, n) == Release.BytesTo(c, n)
  {
    if n != 0 { SamePrefix(a, c, n - 1); }
  }

  lemma AtErase(cs: seq<Chunk>, m: seq<Chunk>, own: seq<Own>, xs: seq<Other>, g: nat, cut: nat, i: nat)
    requires At(cs, m, own, xs, g, cut) && g <= i < |m|
    ensures At(cs, m[..i] + m[i + 1..], own[..i] + own[i + 1..], xs[..i] + xs[i + 1..], g, cut)
    ensures Release.Bytes(m[..i] + m[i + 1..]) == Release.Bytes(m) - m[i].length
  {
    hide Survives, Leftover, Holder;
    BytesErased(m, i, |m|);
    var r, own', xs' := m[..i] + m[i + 1..], own[..i] + own[i + 1..], xs[..i] + xs[i + 1..];
    forall k | 0 <= k < |r|
      ensures var k' := if k < i then k else k + 1; r[k] == m[k'] && own'[k] == own[k'] && xs'[k] == xs[k']
    {
    }
  }

  lemma {:induction false} BytesCut(m: seq<Chunk>, i: nat, d: Chunk, n: nat)
    requires i < |m| && n <= |m|
    ensures Release.BytesTo(m[i := d], n) == Release.BytesTo(m, n) + if i < n then d.length - m[i].length else 0
  {
    if n != 0 { BytesCut(m, i, d, n - 1); }
  }

  lemma AtTrim(cs: seq<Chunk>, m: seq<Chunk>, own: seq<Own>, xs: seq<Other>, g: nat, cut: nat, i: nat)
    requires At(cs, m, own, xs, g, cut) && i < |m| && i < g && m[i].offset < cut < m[i].End()
    ensures var d := m[i].(length := cut - m[i].offset);
            && At(cs, m[i := d], own, xs, g, cut)
            && Release.Bytes(m[i := d]) == Release.Bytes(m) - (m[i].End() - cut)
  {
    BytesCut(m, i, m[i].(length := cut - m[i].offset), |m|);
  }

  datatype Outcome = Skipped | Trimmed | Erased

  /** Give back the lock and the inuse count of a chunk. */
  method GiveBack(b: BytesChunkCache, p: nat, own0: seq<Own>,
                  ghost cs: seq<Chunk>, ghost xs: seq<Other>, ghost g: nat, ghost cut: nat)
    returns (own: seq<Own>)
    requires b.Valid() && p < |b.chunkmap| == |own0| && At(cs, b.chunkmap, own0, xs, g, cut) && own0[p].Locked?
    modifies b`chunkmap, b`stats, b`cacheSize
    ensures b.Valid() && b.cacheSize == old(b.cacheSize) && At(cs, b.chunkmap, own, xs, g, cut)
    ensures own == own0[p := Free] && |b.chunkmap| == |old(b.chunkmap)|
    ensures SameUpto(old(b.chunkmap), b.chunkmap, |b.chunkmap|)
    ensures Release.Bytes(b.chunkmap) == Release.Bytes(old(b.chunkmap)) && SameEnds(old(b.chunkmap), b.chunkmap)
  {
    hide BytesChunkCache.Valid, At, Release.Bytes;
    AtFacts(cs, b.chunkmap, own0, xs, g, cut, p);
    AtFlag(cs, b.chunkmap, own0, xs, g, cut, p, ClearLocked, InUse);
    b.Flag(p, ClearLocked);
    own := own0[p := InUse];
    AtFlag(cs, b.chunkmap, own, xs, g, cut, p, ClearInuse, Free);
    b.Flag(p, ClearInuse);
    own := own[p := Free];
    assert own == own0[p := Free];
  }

  /** A buffer that was cut off: an old chunk past the cut, marked truncated, free for its destructor. */
  ghost predicate WasCut(cs: seq<Chunk>, d: Chunk, g: nat, cut: nat) {
    d.mb.truncated && Destructible(d.mb)
    && exists k :: g <= k < |cs| && cut <= cs[k].offset && d.offset == cs[k].offset && d.length == cs[k].length
                   && (cs[k].mb.uptodate ==> d.mb.uptodate)
  }

  lemma LetGoWasCut(cs: seq<Chunk>, m: seq<Chunk>, own: seq<Own>, xs: seq<Other>, g: nat, cut: nat, i: nat)
    requires At(cs, m, own, xs, g, cut) && g <= i < |m|
    ensures WasCut(cs, LetGo(m[i]), g, cut)
  {
    assert Leftover(cs, m[i], g, cut);
    var k :| g <= k < |cs| && cut <= cs[k].offset && Survives(cs[k], m[i], cut);
    assert cs[k].offset == LetGo(m[i]).offset;
  }

  /** Step 3 on one chunk that the truncate has locked. */
  method CutOne(b: BytesChunkCache, p: nat, cut: nat, own0: seq<Own>,
                ghost cs: seq<Chunk>, ghost xs0: seq<Other>, ghost g: nat)
    returns (own: seq<Own>, outcome: Outcome, bytes: nat, ghost xs: seq<Other>)
    requires b.Valid() && p < |b.chunkmap| == |own0| == |xs0| && At(cs, b.chunkmap, own0, xs0, g, cut)
    requires own0[p].Locked? && cut < b.chunkmap[p].End() && (b.chunkmap[p].offset < cut <==> p < g)
    modifies b
    ensures b.Valid() && At(cs, b.chunkmap, own, xs, g, cut)
    ensures bytes == Release.Bytes(old(b.chunkmap)) - Release.Bytes(b.chunkmap)
    ensures outcome.Skipped? <==> 0 < xs0[p].users
    ensures SameUpto(old(b.chunkmap), b.chunkmap, g)
    ensures if outcome.Erased? then
              && own == own0[..p] + own0[p + 1..] && |b.chunkmap| == |own|
              && (forall k :: 0 <= k < |own| ==> b.chunkmap[k] == old(b.chunkmap)[if k < p then k else k + 1])
              && |b.detached| == |old(b.detached)| + 1 && b.detached[..|old(b.detached)|] == old(b.detached)
              && WasCut(cs, b.detached[|old(b.detached)|], g, cut)
            else
              && own == own0[p := Free] && |b.chunkmap| == |own| && b.detached == old(b.detached)
              && (forall k :: 0 <= k < |own| ==> b.chunkmap[k].offset == old(b.chunkmap)[k].offset)
              && (forall k :: 0 <= k < |own| && k != p ==> b.chunkmap[k].End() == old(b.chunkmap)[k].End())
              && b.chunkmap[p].End() == if outcome.Trimmed? then cut else old(b.chunkmap)[p].End()
  {
    hide BytesChunkCache.Valid, At, Release.Bytes, WasCut;
    xs, bytes := xs0, 0;
    AtFacts(cs, b.chunkmap, own0, xs0, g, cut, p);
    StartsBeforeCut(cs, b.chunkmap, own0, xs0, g, cut, p);
    if 1 < b.chunkmap[p].mb.inuse {
      outcome := Skipped;
      own := GiveBack(b, p, own0, cs, xs, g, cut);
    } else if b.chunkmap[p].offset < cut {
      outcome := Trimmed;
      bytes := b.chunkmap[p].End() - cut;
      AtTrim(cs, b.chunkmap, own0, xs, g, cut, p);
      TrimRight(b, p, bytes);
      own := GiveBack(b, p, own0, cs, xs, g, cut);
    } else {
      outcome := Erased;
      bytes := b.chunkmap[p].length;
      AtErase(cs, b.chunkmap, own0, xs, g, cut, p);
      LetGoWasCut(cs, b.chunkmap, own0, xs, g, cut, p);
      EraseTruncated(b, p);
      own, xs := own0[..p] + own0[p + 1..], xs[..p] + xs[p + 1..];
    }
  }

  /**
    Chunks before p are done with; those still locked reach past the cut; of the others only those do
    that were skipped, and readers have to do with each of them.
   */
  ghost predicate Cutting(m: seq<Chunk>, own: seq<Own>, p: nat, cut: nat, skipped: nat, holds: Script) {
    && p <= |m| == |own|
    && (forall k :: 0 <= k < p ==> own[k].Free?)
    && (forall k :: 0 <= k < |own| ==> !own[k].InUse? && (own[k].Locked? ==> cut < m[k].End()))
    && (forall k :: 0 <= k < |own| && own[k].Free? && cut < m[k].End() ==> !Alone(holds, m[k].offset))
    && skipped == GivenUp(m, own, cut, |m|)
  }

  lemma CuttingReaders(m: seq<Chunk>, m': seq<Chunk>, own: seq<Own>, p: nat, cut: nat, skipped: nat,
                       holds: Script)
    requires Cutting(m, own, p, cut, skipped, holds) && ReadersMay(m, m', own)
    ensures Cutting(m', own, p, cut, skipped, holds)
  {
    hide Alone;
    GivenUpSame(m, m', own, cut, |m|);
  }

  lemma StartsBeforeCut(cs: seq<Chunk>, m: seq<Chunk>, own: seq<Own>, xs: seq<Other>, g: nat, cut: nat, p: nat)
    requires At(cs, m, own, xs, g, cut) && p < |m|
    ensures m[p].offset < cut <==> p < g
    ensures |m| == |own| == |xs| && g <= |m|
  {
    if g <= p { assert Leftover(cs, m[p], g, cut); }
  }

  /** What was cut off so far has gone to the detached buffers. */
  ghost predicate Gone(cs: seq<Chunk>, m: seq<Chunk>, before: seq<Chunk>, ds: seq<Chunk>, g: nat, cut: nat) {
    && |before| <= |ds| && ds[..|before|] == before && |ds| - |before| + |m| == |cs|
    && forall j :: |before| <= j < |ds| ==> WasCut(cs, ds[j], g, cut)
  }

  lemma GoneOne(cs: seq<Chunk>, m: seq<Chunk>, m': seq<Chunk>, before: seq<Chunk>, ds: seq<Chunk>, ds': seq<Chunk>,
                g: nat, cut: nat)
    requires Gone(cs, m, before, ds, g, cut) && |m'| == |m| - 1 && |ds'| == |ds| + 1 && ds'[..|ds|] == ds
    requires WasCut(cs, ds'[|ds|], g, cut)
    ensures Gone(cs, m', before, ds', g, cut)
  {
    assert ds'[..|before|] == ds[..|before|];
    forall j | |before| <= j < |ds'| ensures WasCut(cs, ds'[j], g, cut) {
      if j < |ds| { assert ds'[j] == ds[j]; }
    }
  }

  /** What one cut does to the map and to what the truncate holds. */
  ghost predicate CutsAt(m: seq<Chunk>, m': seq<Chunk>, own: seq<Own>, own': seq<Own>, p: nat, cut: nat, outcome: Outcome) {
    && p < |m| == |own| && |m'| == |own'|
    && if outcome.Erased? then
         && own' == own[..p] + own[p + 1..]
         && forall k :: 0 <= k < |own'| ==> m'[k] == m[if k < p then k else k + 1]
       else
         && own' == own[p := Free]
         && (forall k :: 0 <= k < |own'| ==> m'[k].offset == m[k].offset)
         && (forall k :: 0 <= k < |own'| && k != p ==> m'[k].End() == m[k].End())
         && m'[p].End() == if outcome.Trimmed? then cut else m[p].End()
  }

  lemma CutsCount(m: seq<Chunk>, m': seq<Chunk>, own: seq<Own>, own': seq<Own>, p: nat, cut: nat, outcome: Outcome)
    requires CutsAt(m, m', own, own', p, cut, outcome) && own[p].Locked? && cut < m[p].End()
    ensures GivenUp(m', own', cut, |m'|) == GivenUp(m, own, cut, |m|) + if outcome.Skipped? then 1 else 0
  {
    if outcome.Erased? {
      GivenUpErased(m, m', own, own', p, cut, |m'|);
    } else {
      GivenUpSet(m, m', own, p, Free, cut, |m|);
    }
  }

  /** After one cut: the chunk at p is done with, or gone. */
  lemma CuttingStep(m: seq<Chunk>, m': seq<Chunk>, own: seq<Own>, own': seq<Own>, p: nat, cut: nat, skipped: nat,
                    outcome: Outcome, holds: Script)
    requires Cutting(m, own, p, cut, skipped, holds) && p < |m| && own[p].Locked?
    requires CutsAt(m, m', own, own', p, cut, outcome) && (outcome.Skipped? ==> !Alone(holds, m[p].offset))
    ensures Cutting(m', own', if outcome.Erased? then p else p + 1, cut, if outcome.Skipped? then skipped + 1 else skipped, holds)
  {
    hide Alone, GivenUp;
    CutsCount(m, m', own, own', p, cut, outcome);
  }

  lemma SameUptoTwice(m: seq<Chunk>, m1: seq<Chunk>, m2: seq<Chunk>, g: nat, n: nat)
    requires SameUpto(m, m1, g) && SameUpto(m1, m2, n) && g <= n
    ensures SameUpto(m, m2, g)
  {
  }

  /** One turn of step 3: readers act, then the chunk at p is cut if it is locked, unless a reader uses it by then. */
  method CutTurn(b: BytesChunkCache, p: nat, cut: nat, own0: seq<Own>, skipped0: nat, holds: Script, t: nat,
                 ghost cs: seq<Chunk>, ghost xs0: seq<Other>, ghost g: nat, ghost ds: seq<Chunk>)
    returns (own: seq<Own>, skipped: nat, bytes: nat, p': nat, ghost xs: seq<Other>)
    requires b.Valid() && p < |b.chunkmap| && At(cs, b.chunkmap, own0, xs0, g, cut)
    requires Cutting(b.chunkmap, own0, p, cut, skipped0, holds) && Gone(cs, b.chunkmap, ds, b.detached, g, cut)
    modifies b
    ensures b.Valid() && At(cs, b.chunkmap, own, xs, g, cut) && Cutting(b.chunkmap, own, p', cut, skipped, holds)
    ensures Gone(cs, b.chunkmap, ds, b.detached, g, cut)
    ensures bytes == Release.Bytes(old(b.chunkmap)) - Release.Bytes(b.chunkmap)
    ensures p' <= |b.chunkmap| && |b.chunkmap| - p' < |old(b.chunkmap)| - p
    ensures !holds.fills ==> SameUpto(old(b.chunkmap), b.chunkmap, g)
  {
    hide BytesChunkCache.Valid, At, Release.Bytes, WasCut, Alone, Gone, SameUpto, Cutting;
    AtBounds(cs, b.chunkmap, own0, xs0, g, cut);
    xs := ReadersWhileCutting(b, cut, own0, p, skipped0, holds, t, cs, xs0, g);
    ghost var m, detached := b.chunkmap, b.detached;
    GoneSame(cs, old(b.chunkmap), m, ds, b.detached, g, cut);
    StartsBeforeCut(cs, m, own0, xs, g, cut, p);
    own, skipped, bytes, p' := own0, skipped0, 0, p + 1;
    if !own0[p].Locked? {
      NextIsFree(m, own0, p, cut, skipped0, holds);
      SameUptoLess(old(b.chunkmap), m, g);
      return;
    }
    LockedPastCut(m, own0, p, cut, skipped0, holds);
    NotAlone(holds, t, m[p].offset);
    var outcome;
    own, outcome, bytes, xs := CutOne(b, p, cut, own0, cs, xs, g);
    CuttingStep(m, b.chunkmap, own0, own, p, cut, skipped0, outcome, holds);
    if !holds.fills {
      SameUptoLess(old(b.chunkmap), m, g);
      SameUptoTwice(old(b.chunkmap), m, b.chunkmap, g, g);
    }
    if outcome.Skipped? {
      skipped := skipped + 1;
    }
    if outcome.Erased? {
      GoneOne(cs, m, b.chunkmap, ds, detached, b.detached, g, cut);
      p' := p;
    } else {
      GoneSame(cs, m, b.chunkmap, ds, detached, g, cut);
    }
  }

  lemma SameUptoLess(m: seq<Chunk>, m': seq<Chunk>, g: nat)
    requires g <= |m'|
    ensures SameUpto(m, m', |m'|) ==> SameUpto(m, m', g)
  {
  }

  lemma NotAlone(holds: Script, t: nat, key: nat)
    ensures 0 < holds.at(t, key).users ==> !Alone(holds, key)
  {
  }

  lemma NextIsFree(m: seq<Chunk>, own: seq<Own>, p: nat, cut: nat, skipped: nat, holds: Script)
    requires Cutting(m, own, p, cut, skipped, holds) && p < |m| && !own[p].Locked?
    ensures Cutting(m, own, p + 1, cut, skipped, holds)
  {
  }

  lemma LockedPastCut(m: seq<Chunk>, own: seq<Own>, p: nat, cut: nat, skipped: nat, holds: Script)
    requires Cutting(m, own, p, cut, skipped, holds) && p < |own| && own[p].Locked?
    ensures p < |m| && cut < m[p].End()
  {
  }

  /** Step 3: cut every locked chunk, unless a reader has come to use it by then. */
  method CutAll(b: BytesChunkCache, cut: nat, own0: seq<Own>, skipped0: nat, holds: Script, t0: nat,
                ghost cs: seq<Chunk>, ghost xs0: seq<Other>, ghost g: nat)
    returns (own: seq<Own>, skipped: nat, truncated: nat, t: nat, ghost xs: seq<Other>)
    requires b.Valid() && At(cs, b.chunkmap, own0, xs0, g, cut) && Cutting(b.chunkmap, own0, 0, cut, skipped0, holds)
    requires |b.chunkmap| == |cs|
    modifies b
    ensures b.Valid() && At(cs, b.chunkmap, own, xs, g, cut)
    ensures truncated == Release.Bytes(old(b.chunkmap)) - Release.Bytes(b.chunkmap)
    ensures Cutting(b.chunkmap, own, |b.chunkmap|, cut, skipped, holds)
    ensures Gone(cs, b.chunkmap, old(b.detached), b.detached, g, cut)
    ensures !holds.fills ==> SameUpto(old(b.chunkmap), b.chunkmap, g)
  {
    hide BytesChunkCache.Valid, At, Release.Bytes, WasCut, Gone, SameUpto, Cutting;
    own, skipped, truncated, xs, t := own0, skipped0, 0, xs0, t0;
    var p: nat := 0;
    GoneNothing(cs, b.chunkmap, b.detached, g, cut);
    AtBounds(cs, b.chunkmap, own0, xs0, g, cut);
    SameUptoStart(b.chunkmap, g);
    while p < |b.chunkmap|
      invariant p <= |b.chunkmap|
      invariant b.Valid() && At(cs, b.chunkmap, own, xs, g, cut) && Cutting(b.chunkmap, own, p, cut, skipped, holds)
      invariant truncated == Release.Bytes(old(b.chunkmap)) - Release.Bytes(b.chunkmap)
      invariant Gone(cs, b.chunkmap, old(b.detached), b.detached, g, cut)
      invariant !holds.fills ==> SameUpto(old(b.chunkmap), b.chunkmap, g)
      decreases |b.chunkmap| - p
    {
      var bytes;
      ghost var m := b.chunkmap;
      t := t + 1;
      own, skipped, bytes, p, xs := CutTurn(b, p, cut, own, skipped, holds, t, cs, xs, g, old(b.detached));
      truncated := truncated + bytes;
      if !holds.fills { SameUptoTwice(old(b.chunkmap), m, b.chunkmap, g, g); }
    }
  }

  lemma SameUptoStart(m: seq<Chunk>, g: nat)
    requires g <= |m|
    ensures SameUpto(m, m, g)
  {
  }

  lemma AtBounds(cs: seq<Chunk>, m: seq<Chunk>, own: seq<Own>, xs: seq<Other>, g: nat, cut: nat)
    requires At(cs, m, own, xs, g, cut)
    ensures g <= |m| && g <= |cs|
  {
  }

  lemma GoneNothing(cs: seq<Chunk>, m: seq<Chunk>, ds: seq<Chunk>, g: nat, cut: nat)
    requires |m| == |cs|
    ensures Gone(cs, m, ds, ds, g, cut)
  {
  }

  lemma GoneSame(cs: seq<Chunk>, m: seq<Chunk>, m': seq<Chunk>, before: seq<Chunk>, ds: seq<Chunk>, g: nat, cut: nat)
    requires Gone(cs, m, before, ds, g, cut) && |m'| == |m|
    ensures Gone(cs, m', before, ds, g, cut)
  {
  }

  method ReadersWhileCutting(b: BytesChunkCache, cut: nat, own: seq<Own>, p: nat, skipped: nat, holds: Script, t: nat,
                             ghost cs: seq<Chunk>, ghost xs0: seq<Other>, ghost g: nat)
    returns (ghost xs: seq<Other>)
    requires b.Valid() && At(cs, b.chunkmap, own, xs0, g, cut) && Cutting(b.chunkmap, own, p, cut, skipped, holds)
    modifies b`chunkmap, b`stats, b`cacheSize
    ensures b.Valid() && At(cs, b.chunkmap, own, xs, g, cut) && Cutting(b.chunkmap, own, p, cut, skipped, holds)
    ensures |b.chunkmap| == |old(b.chunkmap)| && Release.Bytes(b.chunkmap) == Release.Bytes(old(b.chunkmap))
    ensures |xs| == |b.chunkmap| && forall i :: 0 <= i < |xs| ==> xs[i] == Acted(holds.at(t, b.chunkmap[i].offset), own[i])
    ensures RightEdge(old(b.chunkmap), old(b.cacheSize)) ==> RightEdge(b.chunkmap, b.cacheSize)
    ensures !holds.fills ==> SameUpto(old(b.chunkmap), b.chunkmap, |b.chunkmap|)
  {
    hide BytesChunkCache.Valid, At, Release.Bytes, Cutting, RightEdge, SameUpto;
    AtHolders(cs, b.chunkmap, own, xs0, g, cut);
    xs := Readers(b, own, holds, t, xs0);
    AtReaders(cs, old(b.chunkmap), b.chunkmap, own, xs0, xs, g, cut);
    CuttingReaders(old(b.chunkmap), b.chunkmap, own, p, cut, skipped, holds);
  }

  method FindRightEdge(m: seq<Chunk>) returns (n: nat)
    requires Wf(m)
    ensures RightEdge(m, n)
  {
    var k := |m|;
    while 0 < k
      invariant 0 <= k <= |m| && forall j :: k <= j < |m| ==> !m[j].mb.uptodate
    {
      k := k - 1;
      if m[k].mb.uptodate {
        return m[k].End();
      }
    }
    n := 0;
  }

  method RecomputeSize(b: BytesChunkCache)
    requires b.Valid()
    modifies b`cacheSize
    ensures b.Valid() && RightEdge(b.chunkmap, b.cacheSize) && b.cacheSize <= old(b.cacheSize)
  {
    hide Tally, TallyDetached, Stats.Plus;
    var n := FindRightEdge(b.chunkmap);
    b.cacheSize := n;
  }

  lemma LockedReach(cs: seq<Chunk>, m: seq<Chunk>, own: seq<Own>, cut: nat, f: nat, skipped: nat, holds: Script)
    requires Affected(cs, cut, f) && SameEnds(cs, m) && |own| == |m| && skipped == GivenUp(m, own, cut, |m|)
    requires forall k :: 0 <= k < |own| ==> !own[k].InUse? && (k < f ==> own[k].Free?)
    requires forall k :: f <= k < |own| && own[k].Free? ==> !Alone(holds, m[k].offset)
    ensures Cutting(m, own, 0, cut, skipped, holds)
  {
  }

  /** Who holds what is exactly what the script says readers hold at time t. */
  ghost predicate HeldByReaders(m: seq<Chunk>, holds: Script, t: nat) {
    forall i :: 0 <= i < |m| ==>
      && m[i].mb.inuse == holds.at(t, m[i].offset).users
      && (m[i].mb.locked <==> holds.at(t, m[i].offset).locks)
  }

  /** A chunk that no reader has anything to do with is cut: none of its bytes at or past the cut is cached. */
  ghost predicate AloneIsCut(cs: seq<Chunk>, m: seq<Chunk>, cut: nat, holds: Script) {
    forall k, o: nat :: 0 <= k < |cs| && cs[k].Holds(o) && cut <= o && Alone(holds, cs[k].offset) ==> !Cached(m, o)
  }

  lemma AllAloneCut(cs: seq<Chunk>, m: seq<Chunk>, g: nat, cut: nat, holds: Script)
    requires Wf(cs) && CutOff(cs, m, g, cut) && forall k :: 0 <= k < |m| && cut < m[k].End() ==> !Alone(holds, m[k].offset)
    ensures AloneIsCut(cs, m, cut, holds)
  {
    hide Alone;
    forall k, o: nat | 0 <= k < |cs| && cs[k].Holds(o) && cut <= o && Alone(holds, cs[k].offset) ensures !Cached(m, o) {
      if Cached(m, o) {
        var i :| 0 <= i < |m| && m[i].Holds(o);
        var j := CutOrigin(cs, m, g, cut, i);
        OneHolder(cs, j, k, o);
      }
    }
  }

  /** Where a chunk that is left comes from. */
  lemma CutOrigin(cs: seq<Chunk>, m: seq<Chunk>, g: nat, cut: nat, i: nat) returns (j: nat)
    requires CutOff(cs, m, g, cut) && i < |m|
    ensures j < |cs| && cs[j].offset == m[i].offset && m[i].End() <= cs[j].End()
  {
    j := i;
    if g <= i {
      assert Leftover(cs, m[i], g, cut);
      j :| g <= j < |cs| && cut <= cs[j].offset && Survives(cs[j], m[i], cut);
    } else {
      assert Survives(cs[i], m[i], cut);
    }
  }

  lemma UndisturbedIsCut(cs: seq<Chunk>, m: seq<Chunk>, g: nat, cut: nat, holds: Script)
    requires CutOff(cs, m, g, cut) && forall k :: 0 <= k < |m| && cut < m[k].End() ==> !Alone(holds, m[k].offset)
    ensures Undisturbed(cs, cut, holds) ==> forall k :: 0 <= k < |m| ==> m[k].End() <= cut
  {
    hide Alone, CutOff;
    forall k | 0 <= k < |m| && cut < m[k].End() ensures !Undisturbed(cs, cut, holds) {
      var j := CutOrigin(cs, m, g, cut, k);
      assert PastCut(cs, cut, cs[j].offset);
    }
  }

  /** What the end of every path has to show. */
  lemma Finished(cs: seq<Chunk>, m: seq<Chunk>, own: seq<Own>, xs: seq<Other>, g: nat, cut: nat, skipped: nat,
                 holds: Script, t: nat)
    requires Wf(cs) && At(cs, m, own, xs, g, cut) && Cutting(m, own, |m|, cut, skipped, holds)
    requires |xs| == |m| && forall i :: 0 <= i < |xs| ==> xs[i] == Acted(holds.at(t, m[i].offset), own[i])
    ensures CutOff(cs, m, g, cut) && HeldByReaders(m, holds, t)
    ensures skipped == Past(m, cut, |m|) && AloneIsCut(cs, m, cut, holds)
    ensures skipped == 0 ==> forall o: nat :: cut <= o ==> !Cached(m, o)
    ensures Undisturbed(cs, cut, holds) ==> skipped == 0
  {
    hide Alone, GivenUp, Past, Undisturbed, CutOff, AloneIsCut;
    AllGivenUp(m, own, cut, |m|);
    AllAloneCut(cs, m, g, cut, holds);
    UndisturbedIsCut(cs, m, g, cut, holds);
  }

  /** Steps 1 to 3, there being something to cut. */
  method LockAndCut(b: BytesChunkCache, cut: nat, post: bool, holds: Script, f: nat,
                    ghost cs: seq<Chunk>, ghost xs0: seq<Other>, ghost g: nat)
    returns (skipped: nat, truncated: nat, ghost t: nat)
    requires b.Valid() && b.chunkmap == cs && Affected(cs, cut, f) && (!post ==> Fair(holds))
    requires At(cs, cs, seq(|cs|, _ => Free), xs0, g, cut)
    modifies b
    ensures b.Valid()
    ensures CutOff(cs, b.chunkmap, g, cut) && HeldByReaders(b.chunkmap, holds, t)
    ensures truncated == Release.Bytes(cs) - Release.Bytes(b.chunkmap)
    ensures skipped == Past(b.chunkmap, cut, |b.chunkmap|) && AloneIsCut(cs, b.chunkmap, cut, holds)
    ensures skipped == 0 ==> forall o: nat :: cut <= o ==> !Cached(b.chunkmap, o)
    ensures Undisturbed(cs, cut, holds) ==> skipped == 0
    ensures Gone(cs, b.chunkmap, old(b.detached), b.detached, g, cut)
    ensures 0 < truncated ==> RightEdge(b.chunkmap, b.cacheSize)
    ensures !holds.fills ==> SameUpto(cs, b.chunkmap, g)
  {
    hide BytesChunkCache.Valid, At, Release.Bytes, Cutting, CutOff, Cached, RightEdge, Undisturbed, Gone, HeldByReaders,
         SameUpto, Holders, AllQuiet, Alone, AloneIsCut, Past, GivenUp;
    var own, time;
    ghost var xs, m := xs0, b.chunkmap;
    ValidWf(b);
    truncated := 0;
    AtBounds(cs, cs, seq(|cs|, _ => Free), xs, g, cut);
    GoneNothing(cs, b.chunkmap, b.detached, g, cut);
    own := TakeInuse(b, f, cs, xs, g, cut);
    AffectedStays(cs, b.chunkmap, cut, f);
    SameUptoLess(cs, b.chunkmap, g);
    m := b.chunkmap;
    own, skipped, time, xs := LockAll(b, f, post, own, holds, 0, cs, xs, g, cut);
    if !holds.fills { SameUptoTwice(cs, m, b.chunkmap, g, |b.chunkmap|); }
    LockedReach(cs, b.chunkmap, own, cut, f, skipped, holds);
    if forall k :: 0 <= k < |own| ==> own[k].Free? {
      NothingLocked(b.chunkmap, own, cut, skipped, holds);
      GoneSame(cs, cs, b.chunkmap, b.detached, b.detached, g, cut);
    } else {
      m := b.chunkmap;
      own, skipped, truncated, time, xs := CutAll(b, cut, own, skipped, holds, time, cs, xs, g);
      if !holds.fills { SameUptoTwice(cs, m, b.chunkmap, g, g); }
      RecomputeSize(b);
    }
    time, m := time + 1, b.chunkmap;
    AtBounds(cs, b.chunkmap, own, xs, g, cut);
    xs := ReadersWhileCutting(b, cut, own, |b.chunkmap|, skipped, holds, time, cs, xs, g);
    GoneSame(cs, m, b.chunkmap, old(b.detached), b.detached, g, cut);
    if !holds.fills { SameUptoTwice(cs, m, b.chunkmap, g, |b.chunkmap|); }
    Finished(cs, b.chunkmap, own, xs, g, cut, skipped, holds, time);
    t := time;
  }

  /**
    truncate(), with readers at work: chunks that start before the cut survive with their data; the
    cached bytes fall by what is reported; every chunk is left with exactly the inuse count and the
    lock that readers hold on it; what was cut off is marked truncated and free for its destructor.
    The number reported is that of the chunks which still reach past the cut; a chunk that no reader has
    to do with is not among them, whatever readers do to others.  The cache size is brought down to the
    last uptodate byte unless there was nothing to cut or nothing could be locked.
   */
  method TruncateCache(b: BytesChunkCache, cut: nat, post: bool, holds: Script)
    returns (skipped: nat, truncated: nat, ghost t: nat, ghost g: nat)
    requires b.Valid() && AllQuiet(b.chunkmap) && HeldByReaders(b.chunkmap, holds, 0)
    requires !post ==> Fair(holds)
    modifies b
    ensures b.Valid()
    ensures CutOff(old(b.chunkmap), b.chunkmap, g, cut)
    ensures HeldByReaders(b.chunkmap, holds, t)
    ensures truncated == old(b.stats.cached) - b.stats.cached
    ensures skipped == Past(b.chunkmap, cut, |b.chunkmap|) && AloneIsCut(old(b.chunkmap), b.chunkmap, cut, holds)
    ensures skipped == 0 ==> forall o: nat :: cut <= o ==> !Cached(b.chunkmap, o)
    ensures Undisturbed(old(b.chunkmap), cut, holds) ==> skipped == 0
    ensures Gone(old(b.chunkmap), b.chunkmap, old(b.detached), b.detached, g, cut)
    ensures 0 < truncated ==> RightEdge(b.chunkmap, b.cacheSize)
    ensures !holds.fills ==> SameUpto(old(b.chunkmap), b.chunkmap, g)
  {
    hide BytesChunkCache.Valid, At, Release.Bytes, Cutting, CutOff, Cached, RightEdge, Undisturbed, Gone, HeldByReaders,
         SameUpto, Alone, AloneIsCut, Past, GivenUp;
    ghost var cs := b.chunkmap;
    var f, own: seq<Own>;
    ghost var xs;
    CountedBytes(b);
    ValidWf(b);
    f, g := FirstAffected(b.chunkmap, cut);
    skipped, truncated := 0, 0;
    own := seq(|b.chunkmap|, _ => Free);
    xs := seq(|cs|, i requires 0 <= i < |cs| => holds.at(0, cs[i].offset));
    StartAt(cs, own, xs, g, cut, holds);
    AtBounds(cs, b.chunkmap, own, xs, g, cut);
    GoneNothing(cs, b.chunkmap, b.detached, g, cut);
    SameUptoStart(cs, g);
    if f == |b.chunkmap| {
      NothingAffected(cs, own, cut, f, holds);
      Finished(cs, b.chunkmap, own, xs, g, cut, skipped, holds, 0);
      t := 0;
      return;
    }
    skipped, truncated, t := LockAndCut(b, cut, post, holds, f, cs, xs, g);
    CountedBytes(b);
  }

  lemma AffectedStays(cs: seq<Chunk>, m: seq<Chunk>, cut: nat, f: nat)
    requires Affected(cs, cut, f) && SameEnds(cs, m)
    ensures forall k :: 0 <= k < |m| ==> (f <= k <==> cut < m[k].End())
  {
  }

  lemma CountedBytes(b: BytesChunkCache)
    requires b.Valid()
    ensures b.stats.cached == Release.Bytes(b.chunkmap)
  {
    hide Tally, TallyDetached, Stats.Plus, Release.Bytes;
    CachedIsInMap(b.chunkmap, b.detached);
  }

  lemma ValidWf(b: BytesChunkCache)
    requires b.Valid()
    ensures Wf(b.chunkmap)
  {
  }

  lemma StartAt(cs: seq<Chunk>, own: seq<Own>, xs: seq<Other>, g: nat, cut: nat, holds: Script)
    requires CutOff(cs, cs, g, cut) && AllQuiet(cs) && HeldByReaders(cs, holds, 0)
    requires |own| == |cs| == |xs| && forall i :: 0 <= i < |cs| ==> own[i].Free? && xs[i] == holds.at(0, cs[i].offset)
    ensures At(cs, cs, own, xs, g, cut)
    ensures forall i :: 0 <= i < |xs| ==> xs[i] == Acted(holds.at(0, cs[i].offset), own[i])
  {
  }

  lemma NothingAffected(m: seq<Chunk>, own: seq<Own>, cut: nat, f: nat, holds: Script)
    requires Affected(m, cut, f) && f == |m| == |own| && forall k :: 0 <= k < |own| ==> own[k].Free?
    ensures Cutting(m, own, |m|, cut, 0, holds)
  {
    NoneGivenUp(m, own, cut, |m|);
  }

  lemma NothingLocked(m: seq<Chunk>, own: seq<Own>, cut: nat, skipped: nat, holds: Script)
    requires Cutting(m, own, 0, cut, skipped, holds) && forall k :: 0 <= k < |own| ==> own[k].Free?
    ensures Cutting(m, own, |m|, cut, skipped, holds)
  {
  }

  /** Readers that neither come nor go find the chunks that start before the cut held as they were. */
  lemma IdleReadersUnchanged(cs: seq<Chunk>, m: seq<Chunk>, g: nat, cut: nat, holds: Script, t: nat, i: nat)
    requires CutOff(cs, m, g, cut) && HeldByReaders(cs, holds, 0) && HeldByReaders(m, holds, t) && i < g
    requires forall key: nat :: holds.at(t, key) == holds.at(0, key)
    ensures m[i].mb.inuse == cs[i].mb.inuse && m[i].mb.locked == cs[i].mb.locked
  {
    assert Survives(cs[i], m[i], cut);
  }

  // ---------------------------------------------------------------- a cache size that is too small

  /** A new cache with a chunk [0, 20) that a reader is about to fill and an uptodate chunk [30, 40). */
  method TwoChunks() returns (b: BytesChunkCache)
    ensures fresh(b) && b.Valid() && b.detached == [] && |b.chunkmap| == 2 && AllQuiet(b.chunkmap)
    ensures var c := b.chunkmap[0];
            c.offset == 0 && c.length == 20 && c.mb.inuse == 1 && !c.mb.locked && !c.mb.uptodate
    ensures var d := b.chunkmap[1];
            d.offset == 30 && d.length == 10 && d.mb.inuse == 0 && !d.mb.locked && d.mb.uptodate
  {
    hide BytesChunkCache.Valid, Get.LeftGood, Get.RightGood, Get.WaitsAfter, Get.WaitsBefore, Get.Overlooked,
         PruneFrom, Get.PiecesFrom, Get.FillFrom;
    b := new BytesChunkCache();
    var junk: nat -> byte := _ => 0;
    var ps, left, right;
    PrunedNothing(b.chunkmap, KeepNone);
    FirstFill(junk);
    ps, left, right := b.GetRange(0, 20, junk, 0, KeepNone);
    assert b.chunkmap == [Use(NewChunk(0, 20, junk))];
    PrunedNothing(b.chunkmap, KeepNone);
    SecondFill(b.chunkmap, junk);
    ps, left, right := b.GetRange(30, 10, junk, 0, KeepNone);
    assert b.chunkmap == [Use(NewChunk(0, 20, junk)), Use(NewChunk(30, 40, junk))];
    b.Flag(1, Lock);
    b.Flag(1, SetUptodate);
    b.Flag(1, ClearLocked);
    b.Flag(1, ClearInuse);
  }

  lemma FirstFill(junk: nat -> byte)
    ensures Get.Fill([], 0, 20, junk) == [Use(NewChunk(0, 20, junk))]
  {
  }

  lemma SecondFill(cs: seq<Chunk>, junk: nat -> byte)
    requires |cs| == 1 && cs[0].End() == 20
    ensures Get.Fill(cs, 30, 40, junk) == [cs[0], Use(NewChunk(30, 40, junk))]
  {
    assert Get.FillFrom(cs, 1, 30, 40, junk) == [Use(NewChunk(30, 40, junk))];
  }

  /**
    The assertion of get_cache_size() fails after these calls: get() of two ranges, one of them filled,
    and a truncate that takes that one out of the map while its buffer has not been destroyed yet.
   */
  method SizeAssertCanFail() returns (b: BytesChunkCache)
    ensures b.Valid() && !SizeAssert(b.stats, b.cacheSize)
  {
    hide BytesChunkCache.Valid, CutOff, Gone, RightEdge, SameUpto;
    b := TwoChunks();
    var holds := Script((t: nat, key: nat) => if key == 0 then Other(1, false) else Other(0, false), false);
    ghost var cs := b.chunkmap;
    CountedBytes(b);
    var skipped, truncated;
    ghost var t, g;
    assert Undisturbed(cs, 25, holds);
    skipped, truncated, t, g := TruncateCache(b, 25, true, holds);
    ValidWf(b);
    OneGone(b.chunkmap, b.detached, cs, g);
    TwoBytes(cs);
    CountedBytes(b);
    OneBytes(b.chunkmap);
    SizeTooSmall(b, cs, g);
  }

  /** The two chunks of the example. */
  ghost predicate Example(cs: seq<Chunk>) {
    && |cs| == 2 && cs[0].offset == 0 && cs[0].length == 20 && !cs[0].mb.uptodate
    && cs[1].offset == 30 && cs[1].length == 10 && cs[1].mb.uptodate
  }

  lemma OneGone(m: seq<Chunk>, ds: seq<Chunk>, cs: seq<Chunk>, g: nat)
    requires Example(cs) && CutOff(cs, m, g, 25) && Gone(cs, m, [], ds, g, 25) && Wf(m)
    requires forall o: nat :: 25 <= o ==> !Cached(m, o)
    ensures g == 1 && |m| == 1 && m[0].length == 20 && |ds| == 1 && ds[0].mb.uptodate && ds[0].length == 10
  {
    assert g == 1;
    if 1 < |m| {
      assert Leftover(cs, m[1], 1, 25);
      Get.HoldsCached(m, m[1], m[1].offset);
    }
    assert Survives(cs[0], m[0], 25);
    assert WasCut(cs, ds[0], g, 25);
  }

  lemma TwoBytes(cs: seq<Chunk>)
    requires Example(cs)
    ensures Release.Bytes(cs) == 30
  {
    assert Release.BytesTo(cs, 1) == 20;
  }

  lemma OneBytes(m: seq<Chunk>)
    requires |m| == 1
    ensures Release.Bytes(m) == m[0].length
  {
    assert Release.BytesTo(m, 0) == 0;
  }

  lemma SizeTooSmall(b: BytesChunkCache, cs: seq<Chunk>, g: nat)
    requires b.Valid() && Example(cs) && CutOff(cs, b.chunkmap, g, 25) && Gone(cs, b.chunkmap, [], b.detached, g, 25)
    requires (forall o: nat :: 25 <= o ==> !Cached(b.chunkmap, o)) && SameUpto(cs, b.chunkmap, g)
    requires RightEdge(b.chunkmap, b.cacheSize)
    ensures !SizeAssert(b.stats, b.cacheSize)
  {
    var m, ds := b.chunkmap, b.detached;
    OneGone(m, ds, cs, g);
    TallyOne(m[0]);
    TallyOne(ds[0]);
    assert m == [m[0]] && ds == [ds[0]];
  }
}
