/**
  bytes_chunk_cache: the cache object of one file.

  The counters are kept next to the map by every operation; `Valid` says that they equal the sums
  they stand for, that the map is in order, and that the cache size is at or past the right edge of
  every uptodate chunk.  A buffer that leaves the map stays among the detached ones till its last
  user drops it.
 */
module ChunkCache {
  import opened Chunks
  import opened Counters
  import opened Cache
  import Get
  import Release

  predicate KeepNone(c: Chunk) {
    false
  }

  /** What a chunk of a valid map keeps to, apart from its place. */
  ghost predicate Sound(m: seq<Chunk>, n: nat) {
    AllFlags(m) && InSize(m, n)
  }

  lemma PruneSound(m: seq<Chunk>, keep: Chunk -> bool, goal: int, n: nat)
    requires Wf(m) && Sound(m, n)
    ensures var r := PruneFrom(m, 0, keep, goal, 0); Wf(r) && Sound(r, n)
  {
    hide PruneFrom;
    PruneKeeps(m, 0, keep, goal, 0);
    var r := PruneFrom(m, 0, keep, goal, 0);
    assert m[0..] == m;
    forall i | 0 <= i < |r| ensures r[i].FlagsOk() && (r[i].mb.uptodate ==> r[i].End() <= n) {
      assert r[i] in m;
    }
  }

  lemma FillSound(m: seq<Chunk>, lo: nat, hi: nat, junk: nat -> byte, n: nat)
    requires Wf(m) && Sound(m, n) && hi <= MAX_FILE_SIZE
    ensures var r := Get.Fill(m, lo, hi, junk); Wf(r) && Sound(r, n)
  {
    hide Get.FillFrom;
    Get.FillWf(m, lo, hi, junk);
    var r := Get.Fill(m, lo, hi, junk);
    forall i | 0 <= i < |r| ensures r[i].FlagsOk() && (r[i].mb.uptodate ==> r[i].End() <= n) {
      Get.FillAddsOnlyGaps(m, 0, lo, hi, junk, r[i]);
      if Get.FromOld(m, 0, lo, hi, r[i]) {
        var k :| 0 <= k < |m| && r[i] == Get.Touch(m[k], lo, hi);
      }
    }
  }

  lemma TrimSound(cs: seq<Chunk>, m: seq<Chunk>, lo: nat, hi: nat, n: nat)
    requires Sound(cs, n) && Release.Trimmed(cs, m, lo, hi)
    ensures Sound(m, n)
  {
  }

  lemma SweepSound(m: seq<Chunk>, b: nat, e: nat, n: nat)
    requires Sound(m, n)
    ensures Sound(Release.SweepFrom(m, 0, b, e), n)
  {
    var r := Release.SweepFrom(m, 0, b, e);
    forall i | 0 <= i < |r| ensures r[i].FlagsOk() && (r[i].mb.uptodate ==> r[i].End() <= n) {
      Release.SweepOrigin(m, 0, b, e, r[i]);
    }
  }

  lemma {:induction false} DroppedSound(m: seq<Chunk>, k: nat, b: nat, e: nat)
    requires k <= |m| && AllOk(m) && AllFlags(m)
    ensures AllOk(Release.DroppedTo(m, k, b, e)) && AllFlags(Release.DroppedTo(m, k, b, e))
  {
    if k != 0 { DroppedSound(m, k - 1, b, e); }
  }

  lemma FlagCounts(m: seq<Chunk>, i: nat, op: Op, others: Stats)
    requires i < |m| && Allowed(op, m[i].mb)
    ensures var d := m[i].(mb := Apply(op, m[i].mb));
            CountOp(op, others.Plus(Tally(m)), m[i]) == others.Plus(Tally(m[i := d]))
  {
    hide Tally, Apply, CountOp;
    var d := m[i].(mb := Apply(op, m[i].mb));
    TallyUpdate(m, i, d);
    CountOpExact(op, others.Plus(Tally(m)), m[i]);
  }

  lemma DetachedFlagCounts(ds: seq<Chunk>, i: nat, op: Op, t: Stats)
    requires i < |ds| && Allowed(op, ds[i].mb)
    ensures var d := ds[i].(mb := Apply(op, ds[i].mb));
            CountOp(op, TallyDetached(ds).Plus(t), ds[i]) == TallyDetached(ds[i := d]).Plus(t)
  {
    hide TallyDetached, Apply, CountOp, OfBuffer;
    var d := ds[i].(mb := Apply(op, ds[i].mb));
    DetachedUpdate(ds, i, d);
    CountOpExact(op, TallyDetached(ds).Plus(t), ds[i]);
  }

  /** ~membuf() may run: nobody uses the buffer, and its data was saved or cut off by a truncate. */
  predicate Destructible(mb: Membuf) {
    mb.inuse == 0 && !mb.locked && (!mb.dirty || mb.truncated) && !mb.flushing && !mb.commitPending
  }

  /** The counter updates ~membuf() makes. */
  function SubBuffer(s: Stats, c: Chunk): Stats {
    s.(alloc := s.alloc - |c.mb.buffer|, uptodate := s.uptodate - If(c.mb.uptodate, c.length),
       dirty := s.dirty - If(c.mb.truncated && c.mb.dirty, c.length))
  }

  lemma DestroyCounts(ds: seq<Chunk>, j: nat, t: Stats)
    requires j < |ds| && Destructible(ds[j].mb)
    ensures SubBuffer(TallyDetached(ds).Plus(t), ds[j]) == TallyDetached(ds[..j] + ds[j + 1..]).Plus(t)
  {
    DetachedErase(ds, j);
  }

  lemma NothingCounted()
    ensures TallyDetached([]).Plus(Tally([])) == ZERO
  {
  }

  lemma PrunedNothing(m: seq<Chunk>, keep: Chunk -> bool)
    ensures PruneFrom(m, 0, keep, 0, 0) == m
  {
  }

  lemma FirstPassDone(cs: seq<Chunk>, m: seq<Chunk>, lo: nat, hi: nat, b: nat, e: nat, full: nat, trim: nat, n: nat)
    requires Wf(cs) && Sound(cs, n) && Release.FirstPassAt(cs, m, lo, hi, |cs|, b, e, full, trim)
    ensures Release.Trimmed(cs, m, lo, hi) && Wf(m) && Sound(m, n)
    ensures trim == Release.Bytes(cs) - Release.Bytes(m) && |m| == |cs|
    ensures if b == |m| then e == |m| else b < e <= |m|
    ensures forall i :: 0 <= i < |cs| && cs[i].SafeToRelease() && Release.Inside(cs[i], lo, hi) ==> b <= i < e
    ensures forall i :: b <= i < e && i < |cs| ==> Release.Inside(cs[i], lo, hi)
  {
    TrimSound(cs, m, lo, hi, n);
    Release.MidWf(cs, m, m, lo, hi);
  }

  /** What the second pass leaves. */
  lemma SecondPassDone(cs: seq<Chunk>, m: seq<Chunk>, m': seq<Chunk>, lo: nat, hi: nat, b: nat, e: nat, n: nat)
    requires Wf(cs) && lo < hi && Release.Trimmed(cs, m, lo, hi) && Release.Quieter(m, m') && Wf(m') && Sound(m', n)
    requires forall i :: 0 <= i < |cs| && cs[i].SafeToRelease() && Release.Inside(cs[i], lo, hi) ==> b <= i < e
    requires forall i :: b <= i < e && i < |cs| ==> Release.Inside(cs[i], lo, hi)
    ensures var r := Release.SweepFrom(m', 0, b, e);
            && Release.Released(cs, m, m', r, lo, hi, b, e) && Wf(r) && Sound(r, n) && |m'| == |m|
            && Release.Bytes(cs) - Release.Bytes(m) + Release.FreedTo(m', |m'|, b, e)
               == Release.Bytes(cs) - Release.Bytes(r) <= hi - lo
            && AllOk(Release.DroppedTo(m', |m'|, b, e)) && AllFlags(Release.DroppedTo(m', |m'|, b, e))
  {
    var r := Release.SweepFrom(m', 0, b, e);
    Release.ReleaseWf(cs, m, m', r, lo, hi, b, e);
    Release.ReleaseCounts(cs, m, m', r, lo, hi, b, e);
    SweepSound(m', b, e, n);
    DroppedSound(m', |m'|, b, e);
  }

  lemma {:induction false} MapCounts(m: seq<Chunk>, i: nat)
    requires i <= |m|
    ensures Tally(m[i..]).cached == Release.Bytes(m) - Release.BytesTo(m, i) && Tally(m[i..]).chunks == |m| - i
    decreases |m| - i
  {
    if i < |m| {
      MapCounts(m, i + 1);
      assert m[i..][1..] == m[i + 1..];
    }
  }

  lemma {:induction false} DetachedCounts(ds: seq<Chunk>)
    ensures TallyDetached(ds).cached == 0 && TallyDetached(ds).chunks == 0
  {
    if ds != [] { DetachedCounts(ds[1..]); }
  }

  /** bytes_cached and num_chunks are those of the map. */
  lemma CachedIsInMap(m: seq<Chunk>, ds: seq<Chunk>)
    ensures var s := TallyDetached(ds).Plus(Tally(m)); s.cached == Release.Bytes(m) && s.chunks == |m|
  {
    hide Tally, TallyDetached;
    MapCounts(m, 0);
    DetachedCounts(ds);
    assert m[0..] == m;
  }

  lemma {:induction false} DetachedUptodate(ds: seq<Chunk>)
    requires AllOk(ds)
    ensures 0 <= TallyDetached(ds).uptodate
    ensures (forall j :: 0 <= j < |ds| ==> !ds[j].mb.uptodate) <==> TallyDetached(ds).uptodate == 0
  {
    if ds != [] {
      DetachedUptodate(ds[1..]);
      if forall j :: 0 <= j < |ds| ==> !ds[j].mb.uptodate {
        assert forall j :: 0 <= j < |ds[1..]| ==> !ds[1..][j].mb.uptodate;
      } else if !ds[0].mb.uptodate {
        var j :| 0 <= j < |ds| && ds[j].mb.uptodate;
        assert ds[1..][j - 1] == ds[j];
      }
    }
  }

  /** What get_cache_size() insists on. */
  predicate SizeAssert(s: Stats, cacheSize: nat) {
    s.uptodate <= cacheSize || s.cached < s.uptodate
  }

  /** bytes_uptodate of the map never exceeds the cache size, so the assertion holds if no detached buffer is uptodate. */
  lemma UptodateWithinSize(m: seq<Chunk>, ds: seq<Chunk>, n: nat)
    requires Wf(m) && Sound(m, n) && AllOk(ds)
    ensures var s := TallyDetached(ds).Plus(Tally(m));
            && s.uptodate - TallyDetached(ds).uptodate <= n
            && ((forall j :: 0 <= j < |ds| ==> !ds[j].mb.uptodate) ==> s.uptodate <= n && SizeAssert(s, n))
  {
    UptodateFits(m, 0, n);
    DetachedUptodate(ds);
  }

  /** Whatever the map and the cache size, the assertion holds. */
  ghost predicate SizeAssertSafe(ds: seq<Chunk>) {
    forall m: seq<Chunk>, n: nat :: Wf(m) && Sound(m, n) ==> SizeAssert(TallyDetached(ds).Plus(Tally(m)), n)
  }

  /** A map with one chunk that is still being filled, as large as the uptodate buffers outside the map. */
  lemma SizeAssertBreaks(ds: seq<Chunk>) returns (m: seq<Chunk>)
    requires AllOk(ds) && 0 < TallyDetached(ds).uptodate <= MAX_FILE_SIZE
    ensures Wf(m) && Sound(m, 0) && !SizeAssert(TallyDetached(ds).Plus(Tally(m)), 0)
  {
    var c := NewChunk(0, TallyDetached(ds).uptodate, _ => 0);
    m := [c];
    TallyOne(c);
    DetachedCounts(ds);
  }

  /** get_cache_size() may rely on its assertion if and only if no buffer outside the map is uptodate. */
  lemma SizeAssertSafeIff(ds: seq<Chunk>)
    requires AllOk(ds) && TallyDetached(ds).uptodate <= MAX_FILE_SIZE
    ensures SizeAssertSafe(ds) <==> forall j :: 0 <= j < |ds| ==> !ds[j].mb.uptodate
  {
    hide Tally, TallyDetached, SizeAssert, Stats.Plus, Wf, Sound;
    DetachedUptodate(ds);
    if forall j :: 0 <= j < |ds| ==> !ds[j].mb.uptodate {
      forall m: seq<Chunk>, n: nat | Wf(m) && Sound(m, n)
        ensures SizeAssert(TallyDetached(ds).Plus(Tally(m)), n)
      {
        UptodateWithinSize(m, ds, n);
      }
    } else {
      var m := SizeAssertBreaks(ds);
      assert Wf(m) && Sound(m, 0);
    }
  }

  /** The chunk starts inside a range given as for get_dirty_nonflushing_bcs_range(). */
  predicate StartsIn(c: Chunk, start: nat, end: nat) {
    start <= c.offset <= end
  }

  /** That scan on one chunk: a chunk of the range that waits for a flush is in use once more. */
  function Held(c: Chunk, start: nat, end: nat): Chunk {
    if StartsIn(c, start, end) && c.NeedsFlush() && !c.mb.truncated then Use(c) else c
  }

  /** Bytes of the chunks from index i on that start in the range and wait for a flush. */
  function ToFlushIn(m: seq<Chunk>, i: nat, start: nat, end: nat): nat
    requires i <= |m|
    decreases |m| - i
  {
    if i == |m| then 0
    else (if StartsIn(m[i], start, end) && m[i].NeedsFlush() then m[i].length else 0) + ToFlushIn(m, i + 1, start, end)
  }

  lemma {:induction false} NoneInRange(m: seq<Chunk>, i: nat, j: nat, start: nat, end: nat)
    requires i <= j <= |m| && forall k :: i <= k < j ==> !StartsIn(m[k], start, end)
    ensures ToFlushIn(m, i, start, end) == ToFlushIn(m, j, start, end)
    decreases j - i
  {
    if i < j { NoneInRange(m, i + 1, j, start, end); }
  }

  /** Over the whole file the scan totals everything that waits for a flush. */
  lemma {:induction false} WholeFile(m: seq<Chunk>, i: nat, end: nat)
    requires i <= |m| && forall k :: 0 <= k < |m| ==> m[k].offset <= end
    ensures ToFlushIn(m, i, 0, end) == ToFlush(m[i..])
    decreases |m| - i
  {
    if i < |m| {
      WholeFile(m, i + 1, end);
      assert m[i..][1..] == m[i + 1..];
    }
  }

  lemma PastEnd(m: seq<Chunk>, it: nat, end: nat)
    requires Wf(m) && it <= |m| && (it < |m| ==> end < m[it].offset)
    ensures forall k :: it <= k < |m| ==> end < m[k].offset
  {
  }

  lemma HeldSound(m: seq<Chunk>, i: nat, n: nat)
    requires Wf(m) && Sound(m, n) && i < |m|
    ensures Wf(m[i := Use(m[i])]) && Sound(m[i := Use(m[i])], n)
  {
  }

  // ---------------------------------------------------------------- other threads at work on their chunks

  /** A thread goes on with a chunk it holds: it calls a flag method of the buffer, or reads data into it. */
  datatype Work = Call(key: nat, op: Op) | Fill(key: nat, data: seq<byte>)

  /** Nobody works on a chunk that is safe to release, and each flag method has its conditions. */
  predicate Takes(c: Chunk, w: Work) {
    && c.offset == w.key && !c.SafeToRelease()
    && match w
       case Call(_, op) => Allowed(op, c.mb)
       case Fill(_, data) => c.mb.locked && 0 < c.mb.inuse && !c.mb.uptodate && |data| == |c.mb.buffer|
  }

  function WorkOn(c: Chunk, w: Work): Chunk {
    if !Takes(c, w) then c
    else
      match w
      case Call(_, op) => c.(mb := Apply(op, c.mb))
      case Fill(_, data) => c.(mb := c.mb.(buffer := data))
  }

  ghost function Worked(m: seq<Chunk>, w: Work): seq<Chunk> {
    seq(|m|, i requires 0 <= i < |m| => WorkOn(m[i], w))
  }

  ghost function WorkedAll(m: seq<Chunk>, script: seq<Work>): seq<Chunk> {
    if script == [] then m else Worked(WorkedAll(m, script[..|script| - 1]), script[|script| - 1])
  }

  ghost predicate Untouched(script: seq<Work>, key: nat) {
    forall k :: 0 <= k < |script| ==> script[k].key != key
  }

  ghost predicate NoneFilled(script: seq<Work>) {
    forall k :: 0 <= k < |script| ==> !(script[k].Call? && script[k].op.SetUptodate?)
  }

  /** Chunks that are safe to release stay as they are, the others keep their place. */
  lemma {:induction false} WorkIsQuiet(m: seq<Chunk>, script: seq<Work>)
    ensures Release.Quieter(m, WorkedAll(m, script))
  {
    if script != [] {
      hide WorkOn;
      WorkIsQuiet(m, script[..|script| - 1]);
      var w := script[|script| - 1];
      forall c: Chunk ensures SamePlace(c, WorkOn(c, w)) {
        WorkKeepsPlace(c, w);
      }
    }
  }

  predicate SamePlace(c: Chunk, d: Chunk) {
    && (c.SafeToRelease() ==> d == c)
    && d.offset == c.offset && d.length == c.length && d.bufferOffset == c.bufferOffset
    && d.mb.initialOffset == c.mb.initialOffset && |d.mb.buffer| == |c.mb.buffer|
  }

  lemma WorkKeepsPlace(c: Chunk, w: Work)
    ensures SamePlace(c, WorkOn(c, w))
  {
    hide Takes, Allowed, Apply;
    if Takes(c, w) {
      TakesUnsafe(c, w);
      if w.Call? { ApplyKeeps(w.op, c.mb); }
    }
  }

  lemma TakesUnsafe(c: Chunk, w: Work)
    requires Takes(c, w)
    ensures !c.SafeToRelease() && (w.Call? ==> Allowed(w.op, c.mb)) && (w.Fill? ==> |w.data| == |c.mb.buffer|)
  {
  }

  lemma ApplyKeeps(op: Op, mb: Membuf)
    requires Allowed(op, mb)
    ensures Apply(op, mb).initialOffset == mb.initialOffset && Apply(op, mb).buffer == mb.buffer
  {
    match op
    case SetUptodate =>
    case SetDirty =>
    case ClearDirty =>
    case SetFlushing =>
    case ClearFlushing =>
    case _ =>
  }

  lemma {:induction false} UntouchedStays(m: seq<Chunk>, script: seq<Work>, k: nat)
    requires k < |m| && Untouched(script, m[k].offset)
    ensures |WorkedAll(m, script)| == |m| && WorkedAll(m, script)[k] == m[k]
  {
    if script != [] { UntouchedStays(m, script[..|script| - 1], k); }
  }

  /** A chunk that is not safe to release, and that nobody works on, is still there unchanged. */
  ghost predicate UnsafeStay(cs: seq<Chunk>, script: seq<Work>, r: seq<Chunk>) {
    forall c :: c in cs && !c.SafeToRelease() && Untouched(script, c.offset) ==> c in r
  }

  lemma UnsafeStays(cs: seq<Chunk>, m: seq<Chunk>, m': seq<Chunk>, r: seq<Chunk>, lo: nat, hi: nat, b: nat, e: nat,
                    script: seq<Work>)
    requires Release.Released(cs, m, m', r, lo, hi, b, e) && m' == WorkedAll(m, script)
    ensures UnsafeStay(cs, script, r)
  {
    hide WorkedAll, Release.SweepFrom, Untouched;
    forall c | c in cs && !c.SafeToRelease() && Untouched(script, c.offset) ensures c in r {
      var k: nat :| k < |cs| && cs[k] == c;
      assert m[k] == c;
      UntouchedStays(m, script, k);
      Release.SweepKeeps(m', 0, b, e, k);
    }
  }

  lemma NoWork(m: seq<Chunk>, script: seq<Work>)
    ensures script == [] ==> WorkedAll(m, script) == m
  {
  }

  lemma OneWorked(m: seq<Chunk>, i: nat, w: Work)
    requires Wf(m) && i < |m| && m[i].offset == w.key
    ensures Worked(m, w) == m[i := WorkOn(m[i], w)]
  {
  }

  lemma FilledCounts(m: seq<Chunk>, i: nat, data: seq<byte>, n: nat)
    requires Wf(m) && Sound(m, n) && i < |m| && |data| == |m[i].mb.buffer|
    ensures var m' := m[i := m[i].(mb := m[i].mb.(buffer := data))]; Wf(m') && Sound(m', n) && Tally(m') == Tally(m)
  {
    var d := m[i].(mb := m[i].mb.(buffer := data));
    UpdateWf(m, i, d);
    TallyUpdate(m, i, d);
  }

  class BytesChunkCache {
    var chunkmap: seq<Chunk>
    var detached: seq<Chunk>
    var stats: Stats
    var cacheSize: nat
    var invalidatePending: bool

    ghost predicate Valid()
      reads this
    {
      && Wf(chunkmap) && Sound(chunkmap, cacheSize)
      && AllOk(detached) && AllFlags(detached)
      && stats == TallyDetached(detached).Plus(Tally(chunkmap))
    }

    constructor ()
      ensures Valid() && chunkmap == [] && detached == [] && stats == ZERO && cacheSize == 0 && !invalidatePending
    {
      hide Tally, TallyDetached, Stats.Plus;
      chunkmap, detached, stats, cacheSize, invalidatePending := [], [], ZERO, 0, false;
      NothingCounted();
    }

    /** One flag method of the buffer of the i-th chunk; set_uptodate() also raises the cache size. */
    method Flag(i: nat, op: Op)
      requires Valid() && i < |chunkmap| && Allowed(op, chunkmap[i].mb)
      modifies this`chunkmap, this`stats, this`cacheSize
      ensures Valid()
      ensures chunkmap == old(chunkmap)[i := old(chunkmap)[i].(mb := Apply(op, old(chunkmap)[i].mb))]
      ensures cacheSize == if op.SetUptodate? then Max(old(cacheSize), old(chunkmap)[i].End()) else old(cacheSize)
    {
      hide Tally, TallyDetached, Stats.Plus, CountOp;
      FlagCounts(chunkmap, i, op, TallyDetached(detached));
      var c := chunkmap[i];
      var d := c.(mb := Apply(op, c.mb));
      ApplyFlags(op, c);
      UpdateWf(chunkmap, i, d);
      if op.SetUptodate? && cacheSize < c.End() {
        cacheSize := c.End();
      }
      stats := CountOp(op, stats, c);
      chunkmap := chunkmap[i := d];
    }

    /** One flag method of a buffer that has left the map. */
    method FlagDetached(j: nat, op: Op)
      requires Valid() && j < |detached| && Allowed(op, detached[j].mb)
      modifies this`detached, this`stats
      ensures Valid()
      ensures detached == old(detached)[j := old(detached)[j].(mb := Apply(op, old(detached)[j].mb))]
    {
      hide Tally, TallyDetached, Stats.Plus, CountOp;
      DetachedFlagCounts(detached, j, op, Tally(chunkmap));
      var c := detached[j];
      ApplyFlags(op, c);
      stats := CountOp(op, stats, c);
      detached := detached[j := c.(mb := Apply(op, c.mb))];
    }

    /** ~membuf() of a buffer that has left the map. */
    method Destroy(j: nat)
      requires Valid() && j < |detached| && Destructible(detached[j].mb)
      modifies this`detached, this`stats
      ensures Valid() && detached == old(detached)[..j] + old(detached)[j + 1..]
    {
      hide Tally, TallyDetached, Stats.Plus, SubBuffer;
      DestroyCounts(detached, j, Tally(chunkmap));
      stats := SubBuffer(stats, detached[j]);
      detached := detached[..j] + detached[j + 1..];
    }

    /** clear_nolock(): drop all that may go. */
    method ClearNolock()
      requires Valid()
      modifies this`chunkmap, this`detached, this`stats
      ensures Valid()
      ensures chunkmap == PruneFrom(old(chunkmap), 0, KeepNone, -1, 0)
      ensures forall k :: 0 <= k < |chunkmap| ==> !Purgeable(chunkmap[k])
      ensures old(detached) <= detached && |detached| - |old(detached)| == |old(chunkmap)| - |chunkmap|
    {
      hide Tally, TallyDetached, Stats.Plus, PruneFrom;
      PruneSound(chunkmap, KeepNone, -1, cacheSize);
      EarlyExitRefinesLoop(chunkmap, detached, stats, KeepNone, -1);
      forall k | 0 <= k < |PruneFrom(chunkmap, 0, KeepNone, -1, 0)|
        ensures !Purgeable(PruneFrom(chunkmap, 0, KeepNone, -1, 0)[k])
      {
        PurgeIsFull(chunkmap, 0, KeepNone, 0, PruneFrom(chunkmap, 0, KeepNone, -1, 0)[k]);
      }
      if stats.dirty + stats.commitPending == stats.alloc {
        return;
      }
      var pruned;
      chunkmap, detached, stats, pruned := Prune(chunkmap, KeepNone, -1, detached, stats);
    }

    /** inline_prune(): drop chunks, lowest offset first, till the goal is met; `inRa` are wanted by readahead. */
    method InlinePrune(goal: nat, inRa: Chunk -> bool)
      requires Valid()
      modifies this`chunkmap, this`detached, this`stats
      ensures Valid()
      ensures chunkmap == PruneFrom(old(chunkmap), 0, inRa, goal, 0)
      ensures exists n: nat :: && StopsAt(old(chunkmap), 0, inRa, goal, 0, n)
                               && chunkmap == Spared(old(chunkmap), 0, n, inRa) + old(chunkmap)[n..]
      ensures old(detached) <= detached && |detached| - |old(detached)| == |old(chunkmap)| - |chunkmap|
    {
      hide Tally, TallyDetached, Stats.Plus, PruneFrom, StopsAt, Spared;
      PruneSound(chunkmap, inRa, goal, cacheSize);
      PruneMeetsGoal(chunkmap, inRa, goal);
      if goal == 0 {
        PrunedNothing(chunkmap, inRa);
        return;
      }
      var pruned;
      chunkmap, detached, stats, pruned := Prune(chunkmap, inRa, goal, detached, stats);
    }

    /** What a scan starts from: the map, purged if an invalidation is pending. */
    ghost function Scanned(m: seq<Chunk>): seq<Chunk>
      reads this
    {
      if invalidatePending then PruneFrom(m, 0, KeepNone, -1, 0) else m
    }

    /** get() and getx() */
    method GetRange(offset: nat, length: nat, junk: nat -> byte, goal: nat, inRa: Chunk -> bool)
      returns (pieces: seq<Piece>, left: nat, right: nat)
      requires Valid() && 0 < length && offset + length <= MAX_FILE_SIZE
      modifies this
      ensures Valid() && !invalidatePending && cacheSize == old(cacheSize)
      ensures var m := old(Scanned(PruneFrom(chunkmap, 0, inRa, goal, 0)));
              && chunkmap == Get.Fill(m, offset, offset + length, junk)
              && pieces == Get.Pieces(m, offset, offset + length)
              && Get.LeftGood(m, offset, offset + length, left) && Get.RightGood(m, offset, offset + length, right)
              && !Get.WaitsAfter(m, right)
              && (Get.WaitsBefore(m, left) <==> Get.Overlooked(m, offset) && Get.WaitsBefore(m, offset))
              && old(detached) <= detached && |detached| - |old(detached)| == |old(chunkmap)| - |m|
    {
      hide Tally, TallyDetached, Stats.Plus, PruneFrom, Get.FillFrom, Get.PiecesFrom, Get.LeftGood, Get.RightGood,
           Get.WaitsAfter, Get.WaitsBefore, Get.Overlooked;
      InlinePrune(goal, inRa);
      if invalidatePending {
        invalidatePending := false;
        ClearNolock();
      }
      FillSound(chunkmap, offset, offset + length, junk, cacheSize);
      pieces, chunkmap, left, right, stats := Get.GetX(chunkmap, offset, length, junk, stats, TallyDetached(detached));
    }

    /** Other threads go on with chunks they hold while this one holds the map. */
    method Others(script: seq<Work>)
      requires Valid()
      modifies this`chunkmap, this`stats, this`cacheSize
      ensures Valid() && chunkmap == WorkedAll(old(chunkmap), script)
      ensures old(cacheSize) <= cacheSize && (NoneFilled(script) ==> cacheSize == old(cacheSize))
    {
      hide Valid, Worked;
      for k := 0 to |script|
        invariant Valid() && chunkmap == WorkedAll(old(chunkmap), script[..k])
        invariant old(cacheSize) <= cacheSize && (NoneFilled(script) ==> cacheSize == old(cacheSize))
      {
        assert script[..k + 1][..k] == script[..k];
        OneWork(script[k]);
      }
      assert script[..|script|] == script;
    }

    method OneWork(w: Work)
      requires Valid()
      modifies this`chunkmap, this`stats, this`cacheSize
      ensures Valid() && chunkmap == Worked(old(chunkmap), w) && old(cacheSize) <= cacheSize
      ensures !(w.Call? && w.op.SetUptodate?) ==> cacheSize == old(cacheSize)
    {
      hide Tally, TallyDetached, Stats.Plus;
      var i := LowerBound(chunkmap, w.key);
      if i == |chunkmap| || chunkmap[i].offset != w.key || !Takes(chunkmap[i], w) {
        assert chunkmap == Worked(chunkmap, w);
        return;
      }
      OneWorked(chunkmap, i, w);
      match w
      case Call(_, op) =>
        Flag(i, op);
      case Fill(_, data) =>
        FilledCounts(chunkmap, i, data, cacheSize);
        chunkmap := chunkmap[i := chunkmap[i].(mb := chunkmap[i].mb.(buffer := data))];
    }

    /** The scan of a release, its two passes with the other threads in between. */
    method ReleaseScan(offset: nat, length: nat, script: seq<Work>)
      returns (released: nat, ghost m: seq<Chunk>, ghost b: nat, ghost e: nat)
      requires Valid() && 0 < length
      modifies this`chunkmap, this`detached, this`stats, this`cacheSize
      ensures Valid()
      ensures old(cacheSize) <= cacheSize && (NoneFilled(script) ==> cacheSize == old(cacheSize))
      ensures Release.Released(old(chunkmap), m, WorkedAll(m, script), chunkmap, offset, offset + length, b, e)
      ensures released == Release.Bytes(old(chunkmap)) - Release.Bytes(chunkmap) <= length
    {
      hide Tally, TallyDetached, Stats.Plus, Release.FirstPassAt, Release.Quieter, Release.Trimmed, Release.SweepFrom,
           Release.FreedTo, Release.BytesTo, Wf, WorkedAll, NoneFilled, Release.Released, Release.Inside;
      ghost var cs := chunkmap;
      var full, trim, freed, begin, end;
      chunkmap, begin, end, full, trim, stats :=
        Release.FirstPass(chunkmap, offset, length, stats, TallyDetached(detached));
      m, b, e := chunkmap, begin, end;
      FirstPassDone(cs, m, offset, offset + length, b, e, full, trim, cacheSize);
      Others(script);
      WorkIsQuiet(m, script);
      SecondPassDone(cs, m, chunkmap, offset, offset + length, b, e, cacheSize);
      chunkmap, freed, detached, stats := Release.SecondPass(chunkmap, begin, end, detached, stats);
      released := trim + freed;
    }

    /**
      release(): m and m' are the map before and after what other threads do in between, which is an
      input; b and e bound the span of chunks that the second pass looks at.
     */
    method ReleaseRange(offset: nat, length: nat, script: seq<Work>)
      returns (released: nat, ghost m: seq<Chunk>, ghost m': seq<Chunk>, ghost b: nat, ghost e: nat)
      requires Valid() && 0 < length
      modifies this
      ensures Valid() && !invalidatePending
      ensures old(cacheSize) <= cacheSize && (NoneFilled(script) ==> cacheSize == old(cacheSize))
      ensures m' == WorkedAll(m, script) && (script == [] ==> m' == m)
      ensures UnsafeStay(old(Scanned(chunkmap)), script, chunkmap)
      ensures Release.Released(old(Scanned(chunkmap)), m, m', chunkmap, offset, offset + length, b, e)
      ensures released == Release.Bytes(old(Scanned(chunkmap))) - Release.Bytes(chunkmap)
      ensures released <= length
      ensures !old(invalidatePending) ==> released == old(stats.cached) - stats.cached
    {
      hide Tally, TallyDetached, Stats.Plus, PruneFrom, Release.BytesTo, WorkedAll, NoneFilled, UnsafeStay, Release.Released;
      CachedIsInMap(chunkmap, detached);
      if invalidatePending {
        invalidatePending := false;
        ClearNolock();
      }
      ghost var cs := chunkmap;
      released, m, b, e := ReleaseScan(offset, length, script);
      m' := WorkedAll(m, script);
      NoWork(m, script);
      UnsafeStays(cs, m, m', chunkmap, offset, offset + length, b, e, script);
      CachedIsInMap(chunkmap, detached);
    }

    /** get_bytes_to_flush(): never more than the total of the scan for it, and equal unless a write is half done. */
    method GetBytesToFlush() returns (bytes: nat)
      requires Valid()
      ensures var scan, mid := ToFlush(chunkmap) + ToFlush(detached), JustWritten(chunkmap) + JustWritten(detached);
              bytes <= scan && (bytes == scan <==> mid == 0 || scan == 0)
    {
      BytesToFlushExact(chunkmap, detached);
      bytes := BytesToFlush(stats);
    }

    /** get_dirty_nonflushing_bcs_range(): what waits for a flush in a range, held for the caller. */
    method HoldDirty(start: nat, end: nat) returns (found: seq<nat>, bytes: nat)
      requires Valid() && forall i :: 0 <= i < |chunkmap| ==> !chunkmap[i].mb.truncated
      modifies this`chunkmap, this`stats
      ensures Valid() && |chunkmap| == |old(chunkmap)|
      ensures forall i :: 0 <= i < |chunkmap| ==> chunkmap[i] == Held(old(chunkmap)[i], start, end)
      ensures forall i :: 0 <= i < |chunkmap| ==>
                (i in found <==> StartsIn(old(chunkmap)[i], start, end) && old(chunkmap)[i].NeedsFlush())
      ensures bytes == ToFlushIn(old(chunkmap), 0, start, end)
    {
      hide Tally, TallyDetached, Stats.Plus, AddInuse, Wf, Sound;
      ghost var m := chunkmap;
      found, bytes := [], 0;
      var it: nat := LowerBound(chunkmap, start);
      NoneInRange(m, 0, it, start, end);
      while it < |chunkmap| && chunkmap[it].offset <= end
        invariant it <= |chunkmap| == |m|
        invariant Wf(chunkmap) && Sound(chunkmap, cacheSize) && stats == TallyDetached(detached).Plus(Tally(chunkmap))
        invariant forall k :: 0 <= k < it ==> chunkmap[k] == Held(m[k], start, end)
        invariant forall k :: it <= k < |m| ==> chunkmap[k] == m[k] && start <= m[k].offset
        invariant forall k :: 0 <= k < |found| ==> found[k] < it
        invariant forall k :: 0 <= k < it ==> (k in found <==> StartsIn(m[k], start, end) && m[k].NeedsFlush())
        invariant bytes + ToFlushIn(m, it, start, end) == ToFlushIn(m, 0, start, end)
      {
        var c := chunkmap[it];
        if c.mb.dirty && !c.mb.flushing && !c.mb.truncated {
          HeldSound(chunkmap, it, cacheSize);
          Get.CountUse(chunkmap, it, TallyDetached(detached));
          chunkmap, stats := chunkmap[it := Use(c)], AddInuse(stats, c.length);
          found, bytes := found + [it], bytes + c.length;
        }
        it := it + 1;
      }
      PastEnd(m, it, end);
      NoneInRange(m, it, |m|, start, end);
    }
  }
}
