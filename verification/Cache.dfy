/**
  The per-file cache (bytes_chunk_cache): the chunk map, the buffers that have left it but are still
  referenced, and the running counters.

  Every operation keeps the counters equal to the sums they stand for.  The counters of the map
  (chunks, cached bytes) range over the map; those of the buffers also range over the buffers that
  were taken out of the map and live on till their last user drops them.
 */
module Cache {
  import opened Chunks
  import opened Counters
  import Release

  // ---------------------------------------------------------------- the flag machine of one buffer

  datatype Op =
    | SetUptodate
    | SetDirty
    | ClearDirty
    | SetFlushing
    | ClearFlushing
    | SetCommitPending
    | ClearCommitPending
    | Lock
    | ClearLocked
    | SetInuse
    | ClearInuse
    | SetTruncated

  /** When a caller may perform op; these are the conditions the methods of membuf insist on. */
  predicate Allowed(op: Op, mb: Membuf) {
    match op
    case SetUptodate => mb.locked && 0 < mb.inuse
    case SetDirty => mb.locked && 0 < mb.inuse && mb.uptodate && !mb.flushing && !mb.commitPending
    case ClearDirty => mb.locked && 0 < mb.inuse && mb.flushing && mb.dirty
    case SetFlushing => mb.locked && 0 < mb.inuse && !mb.truncated && mb.dirty && mb.uptodate && !mb.flushing
    case ClearFlushing => mb.locked && 0 < mb.inuse && !mb.truncated && mb.flushing && !mb.dirty
    case SetCommitPending =>
      mb.locked && 0 < mb.inuse && mb.uptodate && !mb.dirty && !mb.flushing && !mb.commitPending
    case ClearCommitPending => mb.locked && 0 < mb.inuse && mb.commitPending
    case Lock => 0 < mb.inuse && !mb.locked
    case ClearLocked => mb.locked && 0 < mb.inuse && !mb.flushing
    case SetInuse => true
    case ClearInuse => 0 < mb.inuse && (mb.flushing ==> 1 < mb.inuse)
    case SetTruncated => mb.locked && !mb.truncated && !mb.flushing
  }

  function Apply(op: Op, mb: Membuf): Membuf
    requires Allowed(op, mb)
  {
    match op
    case SetUptodate => mb.(uptodate := true)
    case SetDirty => mb.(dirty := true)
    case ClearDirty => mb.(dirty := false)
    case SetFlushing => mb.(flushing := true)
    case ClearFlushing => mb.(flushing := false)
    case SetCommitPending => mb.(commitPending := true)
    case ClearCommitPending => mb.(commitPending := false)
    case Lock => mb.(locked := true)
    case ClearLocked => mb.(locked := false)
    case SetInuse => mb.(inuse := mb.inuse + 1)
    case ClearInuse => mb.(inuse := mb.inuse - 1)
    case SetTruncated => mb.(truncated := true)
  }

  /** The counter updates each flag method makes; setting a bit that is already set counts once. */
  function CountOp(op: Op, s: Stats, c: Chunk): Stats {
    match op
    case SetUptodate => if c.mb.uptodate then s else s.(uptodate := s.uptodate + c.length)
    case SetDirty => if c.mb.dirty then s else s.(dirty := s.dirty + c.length)
    case ClearDirty => s.(dirty := s.dirty - c.length)
    case SetFlushing => s.(flushing := s.flushing + c.length)
    case ClearFlushing => s.(flushing := s.flushing - c.length)
    case SetCommitPending => s.(commitPending := s.commitPending + c.length)
    case ClearCommitPending => s.(commitPending := s.commitPending - c.length)
    case Lock => s.(locked := s.locked + c.length)
    case ClearLocked => s.(locked := s.locked - c.length)
    case SetInuse => s.(inuse := s.inuse + c.length)
    case ClearInuse => s.(inuse := s.inuse - c.length)
    case SetTruncated => s
  }

  lemma InuseSteps(k: int, n: int)
    ensures (k + 1) * n == k * n + n && (k - 1) * n == k * n - n
  {
  }

  /** Each flag method moves the counters by exactly what its buffer's share changes. */
  lemma CountOpExact(op: Op, s: Stats, c: Chunk)
    requires Allowed(op, c.mb)
    ensures CountOp(op, s, c) == s.Minus(OfBuffer(c)).Plus(OfBuffer(c.(mb := Apply(op, c.mb))))
  {
    match op
    case SetInuse => InuseSteps(c.mb.inuse, c.length);
    case ClearInuse => InuseSteps(c.mb.inuse, c.length);
    case _ =>
  }

  lemma ApplyFlags(op: Op, c: Chunk)
    requires c.FlagsOk() && Allowed(op, c.mb)
    ensures c.(mb := Apply(op, c.mb)).FlagsOk()
  {
  }

  // ---------------------------------------------------------------- purging and pruning

  /** May be dropped from the cache at any time: not in use, not locked, and the server has its data. */
  predicate Purgeable(c: Chunk) {
    c.mb.inuse == 0 && !c.mb.locked && !c.mb.dirty && !c.mb.commitPending
  }

  /** A purge has no goal; pruning stops once enough memory was freed. */
  predicate Enough(goal: int, pruned: nat) {
    0 <= goal <= pruned
  }

  /** The map from index i on after erasing what may go and `keep` does not protect, lowest offset first. */
  function PruneFrom(m: seq<Chunk>, i: nat, keep: Chunk -> bool, goal: int, pruned: nat): seq<Chunk>
    requires i <= |m|
    decreases |m| - i
  {
    if i == |m| || Enough(goal, pruned) then m[i..]
    else if Purgeable(m[i]) && !keep(m[i]) then PruneFrom(m, i + 1, keep, goal, pruned + |m[i].mb.buffer|)
    else [m[i]] + PruneFrom(m, i + 1, keep, goal, pruned)
  }

  /** What is left is part of the old map; everything that had to stay did. */
  lemma {:induction false} PruneKeeps(m: seq<Chunk>, i: nat, keep: Chunk -> bool, goal: int, pruned: nat)
    requires Wf(m) && i <= |m|
    ensures var r := PruneFrom(m, i, keep, goal, pruned);
            && Wf(r) && (i < |m| ==> StartsAt(r, m[i].offset))
            && (forall c :: c in r ==> c in m[i..])
            && (forall c :: c in m[i..] && (!Purgeable(c) || keep(c)) ==> c in r)
    decreases |m| - i
  {
    if i < |m| && !Enough(goal, pruned) {
      var gone := Purgeable(m[i]) && !keep(m[i]);
      var pruned' := if gone then pruned + |m[i].mb.buffer| else pruned;
      PruneKeeps(m, i + 1, keep, goal, pruned');
      assert m[i..] == [m[i]] + m[i + 1..];
      if !gone {
        WfCons(m[i], PruneFrom(m, i + 1, keep, goal, pruned));
      }
    }
  }

  /** With no goal, nothing that may go is left. */
  lemma {:induction false} PurgeIsFull(m: seq<Chunk>, i: nat, keep: Chunk -> bool, pruned: nat, c: Chunk)
    requires i <= |m| && c in PruneFrom(m, i, keep, -1, pruned)
    ensures !Purgeable(c) || keep(c)
    decreases |m| - i
  {
    if i < |m| && (c != m[i] || (Purgeable(m[i]) && !keep(m[i]))) {
      PurgeIsFull(m, i + 1, keep, if Purgeable(m[i]) && !keep(m[i]) then pruned + |m[i].mb.buffer| else pruned, c);
    }
  }

  /** Of the chunks from i to n: those that stay. */
  function Spared(m: seq<Chunk>, i: nat, n: nat, keep: Chunk -> bool): seq<Chunk>
    requires i <= n <= |m|
    decreases n - i
  {
    if i == n then []
    else (if Purgeable(m[i]) && !keep(m[i]) then [] else [m[i]]) + Spared(m, i + 1, n, keep)
  }

  /** Of the chunks from i to n: the memory of those that may go. */
  function Freed(m: seq<Chunk>, i: nat, n: nat, keep: Chunk -> bool): nat
    requires i <= n <= |m|
    decreases n - i
  {
    if i == n then 0
    else (if Purgeable(m[i]) && !keep(m[i]) then |m[i].mb.buffer| else 0) + Freed(m, i + 1, n, keep)
  }

  /** The loop gets through the chunks before n; up to there it stays short of the goal, and there it reaches it. */
  ghost predicate StopsAt(m: seq<Chunk>, i: nat, keep: Chunk -> bool, goal: int, pruned: nat, n: nat) {
    && i <= n <= |m|
    && (n == |m| || 0 <= goal <= pruned + Freed(m, i, n, keep))
    && forall k :: i <= k < n ==> goal < 0 || pruned + Freed(m, i, k, keep) < goal
  }

  lemma {:induction false} PruneStops(m: seq<Chunk>, i: nat, keep: Chunk -> bool, goal: int, pruned: nat) returns (n: nat)
    requires i <= |m|
    ensures StopsAt(m, i, keep, goal, pruned, n)
    ensures PruneFrom(m, i, keep, goal, pruned) == Spared(m, i, n, keep) + m[n..]
    decreases |m| - i
  {
    n := i;
    if i < |m| && !Enough(goal, pruned) {
      var size := if Purgeable(m[i]) && !keep(m[i]) then |m[i].mb.buffer| else 0;
      n := PruneStops(m, i + 1, keep, goal, pruned + size);
      forall k | i <= k < n ensures goal < 0 || pruned + Freed(m, i, k, keep) < goal {
        assert i < k ==> Freed(m, i, k, keep) == size + Freed(m, i + 1, k, keep);
      }
    }
  }

  /**
    Pruning erases what may go among the chunks up to the first place where the memory freed reaches
    the goal, or to the end of the map, and leaves the rest alone.
   */
  lemma PruneMeetsGoal(m: seq<Chunk>, keep: Chunk -> bool, goal: int)
    ensures exists n: nat ::
              StopsAt(m, 0, keep, goal, 0, n) && PruneFrom(m, 0, keep, goal, 0) == Spared(m, 0, n, keep) + m[n..]
  {
    var n := PruneStops(m, 0, keep, goal, 0);
  }

  /** If nothing may go, nothing goes. */
  lemma {:induction false} PurgeNothing(m: seq<Chunk>, i: nat, keep: Chunk -> bool, goal: int, pruned: nat)
    requires i <= |m| && forall k :: i <= k < |m| ==> !Purgeable(m[k]) || keep(m[k])
    ensures PruneFrom(m, i, keep, goal, pruned) == m[i..]
    decreases |m| - i
  {
    if i < |m| && !Enough(goal, pruned) {
      PurgeNothing(m, i + 1, keep, goal, pruned);
    }
  }

  /** The counters are those of the buffers in the map m and the buffers ds outside it. */
  ghost predicate Accounted(m: seq<Chunk>, ds: seq<Chunk>, s: Stats) {
    AllOk(ds) && AllFlags(ds) && s == TallyDetached(ds).Plus(Tally(m))
  }

  /** What is left of a map of n chunks and the buffers that have left it, ds0 before. */
  ghost predicate MovedOut(n: nat, r: seq<Chunk>, ds0: seq<Chunk>, ds: seq<Chunk>) {
    ds0 <= ds && |ds| - |ds0| == n - |r|
  }

  /** Erase from the map, one chunk after the other. */
  method Prune(m: seq<Chunk>, keep: Chunk -> bool, goal: int, ds0: seq<Chunk>, stats0: Stats)
    returns (r: seq<Chunk>, ds: seq<Chunk>, stats: Stats, pruned: nat)
    requires AllOk(m) && AllFlags(m) && Accounted(m, ds0, stats0)
    ensures r == PruneFrom(m, 0, keep, goal, 0)
    ensures Accounted(r, ds, stats) && MovedOut(|m|, r, ds0, ds)
    ensures Enough(goal, pruned) || forall k :: 0 <= k < |r| ==> !Purgeable(r[k]) || keep(r[k])
  {
    hide Tally, TallyDetached, Stats.Plus, SubChunk, PruneFrom, AllOk, AllFlags, Enough;
    r, ds, stats, pruned := m, ds0, stats0, 0;
    var p: nat, i: nat := 0, 0;
    while p < |r| && !Enough(goal, pruned)
      invariant p <= |r| && i <= |m| && r[p..] == m[i..]
      invariant PruneFrom(m, 0, keep, goal, 0) == r[..p] + PruneFrom(m, i, keep, goal, pruned)
      invariant Accounted(r, ds, stats) && MovedOut(|m|, r, ds0, ds)
      invariant forall k :: 0 <= k < p ==> !Purgeable(r[k]) || keep(r[k])
      decreases |r| - p
    {
      PruneStep(m, i, keep, goal, pruned, r, p);
      if Purgeable(r[p]) && !keep(r[p]) {
        Release.CountErase(r, p, ds);
        Detach(m, i, ds);
        stats, ds, pruned := SubChunk(stats, r[p].length), ds + [r[p]], pruned + |r[p].mb.buffer|;
        r := r[..p] + r[p + 1..];
      } else {
        p := p + 1;
      }
      i := i + 1;
    }
    assert r == r[..p] + r[p..];
    PruneDone(m, i, keep, goal, pruned);
  }

  lemma Detach(m: seq<Chunk>, i: nat, ds: seq<Chunk>)
    requires AllOk(m) && AllFlags(m) && AllOk(ds) && AllFlags(ds) && i < |m|
    ensures AllOk(ds + [m[i]]) && AllFlags(ds + [m[i]])
  {
  }

  lemma PruneDone(m: seq<Chunk>, i: nat, keep: Chunk -> bool, goal: int, pruned: nat)
    requires i <= |m|
    ensures i == |m| || Enough(goal, pruned) ==> PruneFrom(m, i, keep, goal, pruned) == m[i..]
  {
  }

  lemma PruneStep(m: seq<Chunk>, i: nat, keep: Chunk -> bool, goal: int, pruned: nat, r: seq<Chunk>, p: nat)
    requires p < |r| && i <= |m| && r[p..] == m[i..] && !Enough(goal, pruned)
    ensures i < |m| && r[p] == m[i]
    ensures var r' := r[..p] + r[p + 1..];
            Purgeable(m[i]) && !keep(m[i]) ==>
              && r'[..p] == r[..p] && r'[p..] == m[i + 1..]
              && PruneFrom(m, i, keep, goal, pruned) == PruneFrom(m, i + 1, keep, goal, pruned + |m[i].mb.buffer|)
    ensures !(Purgeable(m[i]) && !keep(m[i])) ==>
              && r[p + 1..] == m[i + 1..]
              && r[..p] + PruneFrom(m, i, keep, goal, pruned) == r[..p + 1] + PruneFrom(m, i + 1, keep, goal, pruned)
  {
    assert r[p] == r[p..][0] == m[i];
    assert r[p + 1..] == r[p..][1..] == m[i..][1..] == m[i + 1..];
    if !(Purgeable(m[i]) && !keep(m[i])) {
      assert r[..p] + [m[i]] == r[..p + 1];
      var rest := PruneFrom(m, i + 1, keep, goal, pruned);
      assert r[..p] + ([m[i]] + rest) == r[..p + 1] + rest;
    }
  }

  // ---------------------------------------------------------------- what the counters tell

  /** Bytes of the buffers that wait for a flush: the total of the full scan for them. */
  function ToFlush(cs: seq<Chunk>): nat {
    if cs == [] then 0 else (if cs[0].NeedsFlush() then cs[0].length else 0) + ToFlush(cs[1..])
  }

  /** Bytes of the buffers between clear_dirty() and clear_flushing(). */
  function JustWritten(cs: seq<Chunk>): nat {
    if cs == [] then 0 else (if cs[0].mb.flushing && !cs[0].mb.dirty then cs[0].length else 0) + JustWritten(cs[1..])
  }

  /** get_bytes_to_flush() */
  function BytesToFlush(s: Stats): nat {
    if s.flushing <= s.dirty then s.dirty - s.flushing else 0
  }

  lemma {:induction false} DirtyMinusFlushing(cs: seq<Chunk>)
    ensures Tally(cs).dirty - Tally(cs).flushing == ToFlush(cs) - JustWritten(cs)
    ensures TallyDetached(cs).dirty - TallyDetached(cs).flushing == ToFlush(cs) - JustWritten(cs)
  {
    if cs != [] { DirtyMinusFlushing(cs[1..]); }
  }

  /**
    The constant-time count never exceeds what the scan over all live buffers would find, and equals
    it exactly when no write is between its two flag updates or there is nothing to flush at all.
   */
  lemma BytesToFlushExact(m: seq<Chunk>, ds: seq<Chunk>)
    ensures var bytes := BytesToFlush(TallyDetached(ds).Plus(Tally(m)));
            var scan, mid := ToFlush(m) + ToFlush(ds), JustWritten(m) + JustWritten(ds);
            bytes <= scan && (bytes == scan <==> mid == 0 || scan == 0)
  {
    DirtyMinusFlushing(m);
    DirtyMinusFlushing(ds);
  }

  lemma {:induction false} PinnedBytes(cs: seq<Chunk>)
    requires AllOk(cs) && AllFlags(cs)
    ensures Tally(cs).dirty + Tally(cs).commitPending <= Tally(cs).alloc
    ensures Tally(cs).dirty + Tally(cs).commitPending == Tally(cs).alloc ==>
              forall k :: 0 <= k < |cs| ==> cs[k].mb.dirty || cs[k].mb.commitPending
    ensures TallyDetached(cs).dirty + TallyDetached(cs).commitPending <= TallyDetached(cs).alloc
  {
    if cs != [] { PinnedBytes(cs[1..]); }
  }

  /**
    The early exit of a purge is sound: when dirty and commit-pending bytes fill all the allocated
    memory, every chunk is dirty or commit pending and the loop would have erased nothing.
   */
  lemma EarlyExitRefinesLoop(m: seq<Chunk>, ds: seq<Chunk>, s: Stats, keep: Chunk -> bool, goal: int)
    requires AllOk(m) && AllFlags(m) && AllOk(ds) && AllFlags(ds) && s == TallyDetached(ds).Plus(Tally(m))
    ensures s.dirty + s.commitPending <= s.alloc
    ensures s.dirty + s.commitPending == s.alloc ==> PruneFrom(m, 0, keep, goal, 0) == m
  {
    PinnedBytes(m);
    PinnedBytes(ds);
    if s.dirty + s.commitPending == s.alloc {
      PurgeNothing(m, 0, keep, goal, 0);
    }
  }

  /** Every uptodate chunk ends at or before n. */
  ghost predicate InSize(cs: seq<Chunk>, n: nat) {
    forall i :: 0 <= i < |cs| && cs[i].mb.uptodate ==> cs[i].End() <= n
  }

  lemma {:induction false} UptodateFits(cs: seq<Chunk>, from: nat, n: nat)
    requires Wf(cs) && InSize(cs, n) && StartsAt(cs, from) && from <= n
    ensures 0 <= Tally(cs).uptodate <= n - from
  {
    if cs != [] {
      if cs[0].End() <= n {
        UptodateFits(cs[1..], cs[0].End(), n);
      } else {
        NoneUptodate(cs);
      }
    }
  }

  lemma {:induction false} NoneUptodate(cs: seq<Chunk>)
    requires Wf(cs) && cs != [] ==> forall i :: 0 <= i < |cs| ==> !cs[i].mb.uptodate
    ensures Wf(cs) ==> Tally(cs).uptodate == 0
  {
    if Wf(cs) && cs != [] { NoneUptodate(cs[1..]); }
  }
}
