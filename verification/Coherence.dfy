/**
  No write is lost and no read is stale.

  A run interleaves the steps of readers, writers, flushers, committers and cache pruning on one
  file with the steps of the server.  The logical file is what the application has written.  The
  server keeps stable storage and, for UNSTABLE writes (sections 3.3.7 and 3.3.21 of RFC 1813),
  memory on top of it that a COMMIT moves to stable storage.

  A buffer is locked for the whole of a flush, a commit or a read from the server, so these have a
  start and an end as separate steps; a writer's copy under the lock is one step.  A release makes
  two passes over the map, with steps of other threads in between.  The server may restart at any
  time: it loses what is only in its memory and answers with another write verifier from then on.
 */
module Coherence {
  import opened Chunks
  import opened Options
  import Get
  import Release
  import Cache

  /** A READ sent to the server for part of the locked chunk at `key`, with the data it will bring. */
  datatype Pending = Pending(key: nat, offset: nat, data: seq<byte>)

  /** The cache is the only place known to hold the chunk's data for good. */
  predicate Dirtyish(c: Chunk) {
    c.mb.dirty || c.mb.commitPending
  }

  datatype World = World(
    cs: seq<Chunk>,
    pending: seq<Pending>,
    stable: bool,
    committing: bool,
    sweep: Option<(nat, nat)>,
    file: nat -> byte,
    disk: nat -> byte,
    mem: nat -> Option<byte>,
    epoch: nat,
    verf: nat -> nat)
  {
    /** What a READ of the byte at o returns. */
    ghost function View(o: nat): byte {
      match mem(o) case Some(b) => b case None => disk(o)
    }

    ghost predicate Unsaved(o: nat) {
      exists i :: 0 <= i < |cs| && cs[i].Holds(o) && Dirtyish(cs[i])
    }

    /** The buffer's lock belongs to a flush, a commit or a read under way, which also holds an inuse count. */
    ghost predicate Owned(i: nat)
      requires i < |cs|
    {
      || cs[i].mb.flushing || (cs[i].mb.commitPending && committing)
      || exists k :: 0 <= k < |pending| && pending[k].key == cs[i].offset
    }

    /** The WRITE of every commit-pending chunk was answered with the verifier the server has now. */
    ghost predicate VerifiersMatch() {
      forall i :: 0 <= i < |cs| && cs[i].mb.commitPending ==> verf(cs[i].offset) == epoch
    }

    ghost predicate Flushing() {
      exists i :: 0 <= i < |cs| && cs[i].mb.flushing
    }
  }

  // ---------------------------------------------------------------- steps on one chunk

  /** The chunk with data copied over its bytes from file offset o on. */
  function Copy(c: Chunk, o: nat, data: seq<byte>): Chunk
    requires c.Ok() && c.offset <= o && o + |data| <= c.End()
  {
    var at := c.bufferOffset + (o - c.offset);
    c.(mb := c.mb.(buffer := c.mb.buffer[..at] + data + c.mb.buffer[at + |data|..]))
  }

  lemma CopyAt(c: Chunk, o: nat, data: seq<byte>, p: nat)
    requires c.Ok() && c.offset <= o && o + |data| <= c.End() && c.Holds(p)
    ensures var d := Copy(c, o, data);
            && d == c.(mb := c.mb.(buffer := d.mb.buffer)) && |d.mb.buffer| == |c.mb.buffer|
            && d.At(p) == if o <= p < o + |data| then data[p - o] else c.At(p)
  {
  }

  predicate Whole(c: Chunk, o: nat, n: nat) {
    o == c.offset && o + n == c.End()
  }

  function Written(c: Chunk, o: nat, data: seq<byte>): Chunk
    requires c.Ok() && c.offset <= o && o + |data| <= c.End()
  {
    var d := Copy(c, o, data);
    d.(mb := d.mb.(uptodate := true, dirty := true))
  }

  /** Data has arrived from the server: only a read of the whole buffer makes it uptodate. */
  function Arrived(c: Chunk, o: nat, data: seq<byte>): Chunk
    requires c.Ok() && c.offset <= o && o + |data| <= c.End() && 0 < c.mb.inuse
  {
    var d := Copy(c, o, data);
    d.(mb := d.mb.(uptodate := d.mb.uptodate || Whole(c, o, |data|), locked := false, inuse := d.mb.inuse - 1))
  }

  /**
    A read of the whole chunk met the end of the server's file.  If nobody else uses the chunk the rest
    is released and what is left is uptodate; else nothing is.
   */
  function ArrivedShort(c: Chunk, o: nat, data: seq<byte>): Chunk
    requires c.Ok() && c.offset <= o && o + |data| <= c.End() && 0 < c.mb.inuse
  {
    var d := Arrived(c, o, data);
    if d.SafeToRelease() then d.(length := |data|, mb := d.mb.(uptodate := true)) else d
  }

  function Flushed(c: Chunk, stable: bool): Chunk
    requires 0 < c.mb.inuse
  {
    c.(mb := c.mb.(dirty := false, flushing := false, commitPending := !stable, locked := false,
                   inuse := c.mb.inuse - 1))
  }

  /** A commit takes hold of a commit-pending chunk. */
  function Committing(c: Chunk): Chunk {
    if c.mb.commitPending then c.(mb := c.mb.(locked := true, inuse := c.mb.inuse + 1)) else c
  }

  /** A commit is over: it saved the chunk, or failed and leaves it dirty. */
  function Committed(c: Chunk, ok: bool): Chunk {
    if c.mb.commitPending && 0 < c.mb.inuse then
      c.(mb := c.mb.(commitPending := false, dirty := !ok, locked := false, inuse := c.mb.inuse - 1))
    else c
  }

  /** switch_to_stable_write() */
  function Redirtied(c: Chunk): Chunk {
    if c.mb.commitPending then c.(mb := c.mb.(commitPending := false, dirty := true)) else c
  }

  ghost function Map(cs: seq<Chunk>, f: Chunk -> Chunk): (r: seq<Chunk>)
    ensures |r| == |cs| && forall i :: 0 <= i < |cs| ==> r[i] == f(cs[i])
  {
    seq(|cs|, i requires 0 <= i < |cs| => f(cs[i]))
  }

  // ---------------------------------------------------------------- the steps

  datatype Event =
    | Get(lo: nat, hi: nat, junk: nat -> byte)
    | Hold(i: nat)
    | Drop(i: nat)
    | Lock(i: nat)
    | Unlock(i: nat)
    | Write(i: nat, o: nat, data: seq<byte>)
    | ReadStart(i: nat, o: nat, n: nat)
    | ReadDone(i: nat, k: nat)
    | ReadEof(i: nat, k: nat, n: nat)
    | Zero(i: nat, o: nat, n: nat)
    | FlushStart(i: nat)
    | ServerWrites(i: nat, o: nat)
    | FlushDone(i: nat)
    | ServerSaves(o: nat)
    | CommitStart
    | CommitDone
    | CommitFail
    | SwitchToStable
    | ReleaseFirst(lo: nat, hi: nat, m: seq<Chunk>, b: nat, e: nat)
    | ReleaseSecond
    | Restart
    | Prune(keep: Chunk -> bool, goal: int)

  ghost predicate Idle(w: World, i: nat) {
    i < |w.cs| && !w.cs[i].mb.locked && 0 < w.cs[i].mb.inuse
  }

  ghost predicate Fits(c: Chunk, o: nat, n: nat) {
    c.Ok() && c.offset <= o && o + n <= c.End()
  }

  ghost predicate Enabled(w: World, ev: Event) {
    match ev
    // Steps that need the lock of the map are not for while a release holds it.
    case Get(lo, hi, _) => lo < hi <= MAX_FILE_SIZE && w.sweep.None?
    case Hold(i) => i < |w.cs|
    case Drop(i) => i < |w.cs| && (if w.Owned(i) then 1 else 0) < w.cs[i].mb.inuse
    case Lock(i) => Idle(w, i)
    case Unlock(i) => i < |w.cs| && w.cs[i].mb.locked && !w.Owned(i) && 0 < w.cs[i].mb.inuse
    case Write(i, o, data) =>
      && Idle(w, i) && Fits(w.cs[i], o, |data|)
      && (Whole(w.cs[i], o, |data|) || w.cs[i].mb.uptodate) && !w.cs[i].mb.commitPending
    case ReadStart(i, o, n) => Idle(w, i) && !w.cs[i].mb.uptodate && Fits(w.cs[i], o, n)
    case ReadDone(i, k) =>
      && i < |w.cs| && k < |w.pending| && w.pending[k].key == w.cs[i].offset
      && Fits(w.cs[i], w.pending[k].offset, |w.pending[k].data|) && 0 < w.cs[i].mb.inuse
    // The server's file ends n bytes into the chunk, all of which was asked for.
    case ReadEof(i, k, n) =>
      && i < |w.cs| && k < |w.pending| && w.pending[k].key == w.cs[i].offset
      && Fits(w.cs[i], w.pending[k].offset, |w.pending[k].data|) && 0 < w.cs[i].mb.inuse
      && Whole(w.cs[i], w.pending[k].offset, |w.pending[k].data|) && 0 < n < |w.pending[k].data|
    // The part asked for lies past the end of the server's file; the piece must be the whole chunk.
    case Zero(i, o, n) =>
      && Idle(w, i) && !w.cs[i].mb.uptodate && Fits(w.cs[i], o, n) && Whole(w.cs[i], o, n)
      && Hole(w, o, n)
    case FlushStart(i) => Idle(w, i) && w.cs[i].mb.dirty && !w.committing
    case ServerWrites(i, o) => i < |w.cs| && w.cs[i].mb.flushing && w.cs[i].Ok() && w.cs[i].Holds(o)
    case FlushDone(i) => i < |w.cs| && w.cs[i].mb.flushing && w.cs[i].Ok() && 0 < w.cs[i].mb.inuse
    case ServerSaves(_) => true
    case CommitStart =>
      && !w.stable && !w.committing && !w.Flushing() && w.sweep.None?
      && forall i :: 0 <= i < |w.cs| && w.cs[i].mb.commitPending ==> !w.cs[i].mb.locked
    // The client does not look at the verifiers; see CommitSafeIff.
    case CommitDone => w.committing && w.VerifiersMatch()
    case CommitFail => w.committing
    case SwitchToStable =>
      && !w.stable && !w.committing && !w.Flushing() && w.sweep.None?
      && forall i :: 0 <= i < |w.cs| && w.cs[i].mb.commitPending ==> !w.cs[i].mb.locked
    case ReleaseFirst(lo, hi, m, b, e) => w.sweep.None? && lo < hi && Release.Trimmed(w.cs, m, lo, hi)
    case ReleaseSecond => w.sweep.Some?
    case Restart => true
    case Prune(_, _) => w.sweep.None?
  }

  ghost predicate Hole(w: World, o: nat, n: nat) {
    forall p :: o <= p < o + n ==> w.View(p) == 0
  }

  ghost function Put(f: nat -> byte, o: nat, data: seq<byte>): nat -> byte {
    (p: nat) => if o <= p < o + |data| then data[p - o] else f(p)
  }

  ghost function ServerView(w: World, o: nat, n: nat): seq<byte> {
    seq(n, k requires 0 <= k < n => w.View(o + k))
  }

  /** The server has taken the bytes of chunk c that lie in [lo, hi). */
  ghost function Stored(w: World, c: Chunk, lo: nat, hi: nat): World
    requires c.Ok() && c.offset <= lo && hi <= c.End()
  {
    if w.stable then
      w.(disk := (p: nat) => if lo <= p < hi then c.mb.buffer[c.bufferOffset + (p - c.offset)] else w.disk(p),
         mem := (p: nat) => if lo <= p < hi then None else w.mem(p))
    else
      w.(mem := (p: nat) => if lo <= p < hi then Some(c.mb.buffer[c.bufferOffset + (p - c.offset)]) else w.mem(p))
  }

  ghost function Saved(w: World): World {
    w.(disk := (p: nat) => w.View(p), mem := _ => None)
  }

  /** The reply to a WRITE carries the server's verifier, remembered for the chunk with that key. */
  ghost function Answered(w: World, key: nat): World {
    w.(verf := (p: nat) => (if p == key then w.epoch else w.verf(p)) as nat)
  }

  /** What the commit callback does on success, whatever the verifiers. */
  ghost function CommitEffect(w: World): World {
    Saved(w).(cs := Map(w.cs, c => Committed(c, true)), committing := false)
  }

  /** A server restart: what UNSTABLE writes left in its memory is gone, and its verifier is a new one. */
  ghost function Restarted(w: World): World {
    w.(mem := _ => None, epoch := w.epoch + 1)
  }

  ghost function Next(w: World, ev: Event): World
    requires Enabled(w, ev)
  {
    match ev
    case Get(lo, hi, junk) => w.(cs := Get.Fill(w.cs, lo, hi, junk))
    case Hold(i) => w.(cs := w.cs[i := Use(w.cs[i])])
    case Drop(i) => w.(cs := w.cs[i := w.cs[i].(mb := w.cs[i].mb.(inuse := w.cs[i].mb.inuse - 1))])
    case Lock(i) => w.(cs := w.cs[i := w.cs[i].(mb := w.cs[i].mb.(locked := true))])
    case Unlock(i) => w.(cs := w.cs[i := w.cs[i].(mb := w.cs[i].mb.(locked := false))])
    case Write(i, o, data) => w.(cs := w.cs[i := Written(w.cs[i], o, data)], file := Put(w.file, o, data))
    case ReadStart(i, o, n) =>
      w.(cs := w.cs[i := w.cs[i].(mb := w.cs[i].mb.(locked := true))],
         pending := w.pending + [Pending(w.cs[i].offset, o, ServerView(w, o, n))])
    case ReadDone(i, k) =>
      w.(cs := w.cs[i := Arrived(w.cs[i], w.pending[k].offset, w.pending[k].data)],
         pending := w.pending[..k] + w.pending[k + 1..])
    case ReadEof(i, k, n) =>
      w.(cs := w.cs[i := ArrivedShort(w.cs[i], w.pending[k].offset, w.pending[k].data[..n])],
         pending := w.pending[..k] + w.pending[k + 1..])
    case Zero(i, o, n) => w.(cs := w.cs[i := Zeroed(w.cs[i], o, n)])
    case FlushStart(i) => w.(cs := w.cs[i := w.cs[i].(mb := w.cs[i].mb.(locked := true, flushing := true))])
    case ServerWrites(i, o) => Stored(w, w.cs[i], o, o + 1)
    case FlushDone(i) =>
      Answered(Stored(w, w.cs[i], w.cs[i].offset, w.cs[i].End()), w.cs[i].offset)
      .(cs := w.cs[i := Flushed(w.cs[i], w.stable)])
    case ServerSaves(o) =>
      w.(disk := (p: nat) => if p == o then w.View(p) else w.disk(p), mem := (p: nat) => if p == o then None else w.mem(p))
    case CommitStart => w.(cs := Map(w.cs, Committing), committing := true)
    case CommitDone => CommitEffect(w)
    case CommitFail => w.(cs := Map(w.cs, c => Committed(c, false)), committing := false, stable := true)
    case SwitchToStable => w.(cs := Map(w.cs, Redirtied), stable := true)
    case ReleaseFirst(_, _, m, b, e) => w.(cs := m, sweep := Some((b, e)))
    case ReleaseSecond => w.(cs := Release.SweepFrom(w.cs, 0, w.sweep.value.0, w.sweep.value.1), sweep := None)
    case Restart => Restarted(w)
    case Prune(keep, goal) => w.(cs := Cache.PruneFrom(w.cs, 0, keep, goal, 0))
  }

  /** Filling a hole: the part asked for becomes zero and the buffer counts as uptodate. */
  function Zeroed(c: Chunk, o: nat, n: nat): Chunk
    requires c.Ok() && c.offset <= o && o + n <= c.End() && 0 < c.mb.inuse
  {
    var d := Copy(c, o, seq(n, _ => 0));
    d.(mb := d.mb.(uptodate := true, inuse := d.mb.inuse - 1))
  }

  // ---------------------------------------------------------------- what holds in every reachable state

  ghost predicate Mirrors(c: Chunk, file: nat -> byte)
    requires c.Ok()
  {
    forall o :: c.Holds(o) ==> c.At(o) == file(o)
  }

  /**
    One chunk: its bits agree, uptodate means equal to the logical file, commit pending means the server
    has it unless it restarted since.
   */
  ghost predicate Good(w: World, c: Chunk)
    requires c.Ok()
  {
    && c.FlagsOk() && !c.mb.truncated
    && (c.mb.uptodate ==> Mirrors(c, w.file))
    && (c.mb.commitPending ==> !w.stable)
    && (c.mb.commitPending && w.verf(c.offset) == w.epoch ==> forall o :: c.Holds(o) ==> w.View(o) == w.file(o))
    && (c.mb.commitPending && w.committing ==> c.mb.locked && 0 < c.mb.inuse)
    && (c.mb.flushing ==> c.mb.dirty && !w.committing)
  }

  ghost predicate AllGood(w: World)
    requires AllOk(w.cs)
  {
    forall i :: 0 <= i < |w.cs| ==> Good(w, w.cs[i])
  }

  /** The server has the latest value of o, in stable storage, and no other value that could come back. */
  ghost predicate OnServer(w: World, o: nat) {
    w.disk(o) == w.file(o) && w.View(o) == w.file(o)
  }

  ghost predicate NothingLost(w: World) {
    forall o :: !w.Unsaved(o) ==> OnServer(w, o)
  }

  /** A read under way owns the lock of a chunk that is not uptodate, and brings what the file holds. */
  ghost predicate ReadOk(w: World, r: Pending) {
    && (exists i :: 0 <= i < |w.cs| && Reads(w.cs[i], r))
    && (forall k :: 0 <= k < |r.data| ==> r.data[k] == w.file(r.offset + k))
  }

  predicate Reads(c: Chunk, r: Pending) {
    && c.offset == r.key && c.mb.locked && !c.mb.uptodate && 0 < c.mb.inuse
    && c.offset <= r.offset && r.offset + |r.data| <= c.End()
  }

  ghost predicate Distinct(rs: seq<Pending>) {
    forall i, j :: 0 <= i < j < |rs| ==> rs[i].key != rs[j].key
  }

  ghost predicate ReadsOk(w: World) {
    && Distinct(w.pending)
    && forall k :: 0 <= k < |w.pending| ==> ReadOk(w, w.pending[k])
  }

  ghost predicate Coherent(w: World) {
    Wf(w.cs) && AllGood(w) && NothingLost(w) && ReadsOk(w) && forall k :: w.verf(k) <= w.epoch
  }

  // ---------------------------------------------------------------- every step keeps it

  predicate SameShape(c: Chunk, d: Chunk) {
    d.Ok() && d.offset == c.offset && d.length == c.length
  }

  /** The worlds agree on everything but chunk i, which is d afterwards, and on its bytes. */
  ghost predicate OnlyAt(w: World, w': World, i: nat, d: Chunk) {
    && i < |w.cs| && w'.cs == w.cs[i := d] && SameShape(w.cs[i], d)
    && w'.stable == w.stable && w'.committing == w.committing && w'.epoch == w.epoch
    && (forall k :: k != d.offset ==> w'.verf(k) == w.verf(k))
    && forall o :: !d.Holds(o) ==> w'.file(o) == w.file(o) && w'.disk(o) == w.disk(o) && w'.mem(o) == w.mem(o)
  }

  lemma OthersGood(w: World, w': World, i: nat, d: Chunk, j: nat)
    requires Wf(w.cs) && OnlyAt(w, w', i, d) && j < |w.cs| && j != i && Good(w, w.cs[j])
    ensures Good(w', w.cs[j])
  {
    var c := w.cs[j];
    forall o | c.Holds(o) ensures !d.Holds(o) {
      assert if i < j then w.cs[i].End() <= c.offset else c.End() <= w.cs[i].offset;
    }
  }

  lemma OthersSaved(w: World, w': World, i: nat, d: Chunk, o: nat)
    requires NothingLost(w) && OnlyAt(w, w', i, d) && !w'.Unsaved(o) && !d.Holds(o)
    ensures OnServer(w', o)
  {
    forall j | 0 <= j < |w.cs| && w.cs[j].Holds(o) ensures !Dirtyish(w.cs[j]) {
      assert w'.cs[j] == w.cs[j] && w'.cs[j].Holds(o);
    }
    assert OnServer(w, o);
  }

  /** A step on one chunk has to answer for that chunk and its bytes only. */
  lemma OneChunk(w: World, w': World, i: nat, d: Chunk)
    requires Coherent(w) && OnlyAt(w, w', i, d) && Good(w', d)
    requires !Dirtyish(d) ==> forall o :: d.Holds(o) ==> OnServer(w', o)
    ensures Wf(w'.cs) && AllGood(w') && NothingLost(w')
  {
    hide Good, OnServer;
    UpdateWf(w.cs, i, d);
    forall j | 0 <= j < |w'.cs| ensures Good(w', w'.cs[j]) {
      if j != i { OthersGood(w, w', i, d, j); }
    }
    forall o | !w'.Unsaved(o) ensures OnServer(w', o) {
      if d.Holds(o) {
        assert w'.cs[i] == d;
      } else {
        OthersSaved(w, w', i, d, o);
      }
    }
  }

  /** Nobody but the reader touches a chunk that a read owns. */
  lemma ReadsKept(w: World, w': World, i: nat, d: Chunk)
    requires Wf(w.cs) && ReadsOk(w) && OnlyAt(w, w', i, d) && w'.pending == w.pending
    requires w.Owned(i) && w.cs[i].mb.locked && !w.cs[i].mb.uptodate ==>
               w'.file == w.file && d.mb.locked && !d.mb.uptodate && 0 < d.mb.inuse
    ensures ReadsOk(w')
  {
    forall k | 0 <= k < |w'.pending| ensures ReadOk(w', w'.pending[k]) {
      ReadKept(w, w', i, d, w.pending[k]);
    }
  }

  lemma ReadKept(w: World, w': World, i: nat, d: Chunk, r: Pending)
    requires Wf(w.cs) && ReadOk(w, r) && OnlyAt(w, w', i, d)
    requires r.key == d.offset && w.cs[i].mb.locked && !w.cs[i].mb.uptodate
             ==> w'.file == w.file && d.mb.locked && !d.mb.uptodate && 0 < d.mb.inuse
    ensures ReadOk(w', r)
  {
    var j :| 0 <= j < |w.cs| && Reads(w.cs[j], r);
    assert Reads(w'.cs[j], r);
    forall n | 0 <= n < |r.data| ensures r.data[n] == w'.file(r.offset + n) {
      if i != j {
        assert w.cs[j].Holds(r.offset + n) && !d.Holds(r.offset + n) by {
          assert if i < j then d.End() <= w.cs[j].offset else w.cs[j].End() <= d.offset;
        }
      }
    }
  }

  /** Bytes of a chunk that is neither dirty nor commit pending are on the server. */
  lemma CleanIsSaved(w: World, i: nat, o: nat)
    requires Wf(w.cs) && NothingLost(w) && i < |w.cs| && w.cs[i].Holds(o) && !Dirtyish(w.cs[i])
    ensures OnServer(w, o)
  {
    forall j | 0 <= j < |w.cs| && w.cs[j].Holds(o) ensures !Dirtyish(w.cs[j]) {
      OneHolder(w.cs, i, j, o);
    }
  }

  /** Counts and locks of a chunk that no flush, commit or read owns. */
  lemma KeepsHeld(w: World, ev: Event)
    requires Coherent(w) && Enabled(w, ev) && (ev.Hold? || ev.Drop? || ev.Lock? || ev.Unlock?)
    ensures Coherent(Next(w, ev))
  {
    hide Coherent;
    var c := w.cs[ev.i];
    if w.Owned(ev.i) { OwnerHolds(w, ev.i); }
    match ev
    case Hold(i) => KeepsHolders(w, i, c.mb.inuse + 1, c.mb.locked);
    case Drop(i) => KeepsHolders(w, i, c.mb.inuse - 1, c.mb.locked);
    case Lock(i) => KeepsHolders(w, i, c.mb.inuse, true);
    case Unlock(i) => KeepsHolders(w, i, c.mb.inuse, false);
  }

  lemma KeepsHolders(w: World, i: nat, n: nat, l: bool)
    requires Coherent(w) && i < |w.cs| && (w.Owned(i) ==> 0 < n && l == w.cs[i].mb.locked)
    ensures Coherent(w.(cs := w.cs[i := w.cs[i].(mb := w.cs[i].mb.(inuse := n, locked := l))]))
  {
    hide NothingLost, ReadsOk;
    var d := w.cs[i].(mb := w.cs[i].mb.(inuse := n, locked := l));
    var w' := w.(cs := w.cs[i := d]);
    assert Good(w, w.cs[i]);
    forall o | d.Holds(o) && !Dirtyish(d) ensures OnServer(w', o) { CleanIsSaved(w, i, o); }
    OneChunk(w, w', i, d);
    ReadsKept(w, w', i, d);
  }

  /** Whoever owns the lock of a chunk has it locked and holds an inuse count. */
  lemma OwnerHolds(w: World, i: nat)
    requires Coherent(w) && i < |w.cs| && w.Owned(i)
    ensures 0 < w.cs[i].mb.inuse && w.cs[i].mb.locked
  {
    assert Good(w, w.cs[i]);
    if !(w.cs[i].mb.flushing || (w.cs[i].mb.commitPending && w.committing)) {
      var k :| 0 <= k < |w.pending| && w.pending[k].key == w.cs[i].offset;
      assert ReadOk(w, w.pending[k]);
      var j :| 0 <= j < |w.cs| && Reads(w.cs[j], w.pending[k]);
      OneHolder(w.cs, i, j, w.cs[i].offset);
    }
  }

  lemma KeepsWrite(w: World, ev: Event)
    requires Coherent(w) && Enabled(w, ev) && ev.Write?
    ensures Coherent(Next(w, ev))
  {
    hide Copy, NothingLost, ReadsOk;
    var w', c, d := Next(w, ev), w.cs[ev.i], Written(w.cs[ev.i], ev.o, ev.data);
    forall p | c.Holds(p) ensures SameShape(c, d) && d.At(p) == w'.file(p) {
      CopyAt(c, ev.o, ev.data, p);
    }
    CopyAt(c, ev.o, ev.data, c.offset);
    OneChunk(w, w', ev.i, d);
    ReadsKept(w, w', ev.i, d);
  }

  lemma KeepsZero(w: World, ev: Event)
    requires Coherent(w) && Enabled(w, ev) && ev.Zero?
    ensures Coherent(Next(w, ev))
  {
    hide Copy, ReadsOk;
    var w', c, d := Next(w, ev), w.cs[ev.i], Zeroed(w.cs[ev.i], ev.o, ev.n);
    forall p | c.Holds(p) ensures SameShape(c, d) && d.At(p) == w'.file(p) && OnServer(w', p) {
      CopyAt(c, ev.o, seq(ev.n, _ => 0), p);
      CleanIsSaved(w, ev.i, p);
    }
    CopyAt(c, ev.o, seq(ev.n, _ => 0), c.offset);
    OneChunk(w, w', ev.i, d);
    ReadsKept(w, w', ev.i, d);
  }

  lemma NewRead(w: World, w': World, i: nat, r: Pending)
    requires Wf(w.cs) && NothingLost(w) && ReadsOk(w) && i < |w.cs| && !w.cs[i].mb.locked && !Dirtyish(w.cs[i])
    requires OnlyAt(w, w', i, w.cs[i].(mb := w.cs[i].mb.(locked := true)))
    requires w'.file == w.file && w'.pending == w.pending + [r] && Reads(w'.cs[i], r)
    requires r.data == ServerView(w, r.offset, |r.data|)
    ensures ReadsOk(w')
  {
    var c := w.cs[i];
    forall k | 0 <= k < |r.data| ensures r.data[k] == w'.file(r.offset + k) {
      CleanIsSaved(w, i, r.offset + k);
    }
    forall k | 0 <= k < |w.pending| ensures ReadOk(w', w.pending[k]) && w.pending[k].key != c.offset {
      ReadKept(w, w', i, w'.cs[i], w.pending[k]);
      var j :| 0 <= j < |w.cs| && Reads(w.cs[j], w.pending[k]);
    }
  }

  lemma KeepsReadStart(w: World, ev: Event)
    requires Coherent(w) && Enabled(w, ev) && ev.ReadStart?
    ensures Coherent(Next(w, ev))
  {
    hide ReadsOk;
    var w', c := Next(w, ev), w.cs[ev.i];
    forall p | c.Holds(p) ensures OnServer(w', p) { CleanIsSaved(w, ev.i, p); }
    OneChunk(w, w', ev.i, c.(mb := c.mb.(locked := true)));
    NewRead(w, w', ev.i, Pending(c.offset, ev.o, ServerView(w, ev.o, ev.n)));
  }

  lemma ReadGone(w: World, w': World, i: nat, d: Chunk, k: nat)
    requires Wf(w.cs) && ReadsOk(w) && k < |w.pending| && OnlyAt(w, w', i, d) && w'.file == w.file
    requires w.pending[k].key == d.offset && w'.pending == w.pending[..k] + w.pending[k + 1..]
    ensures ReadsOk(w')
  {
    forall j | 0 <= j < |w'.pending| ensures ReadOk(w', w'.pending[j]) {
      var j' := if j < k then j else j + 1;
      assert w'.pending[j] == w.pending[j'] && w.pending[j'].key != w.pending[k].key;
      ReadKept(w, w', i, d, w.pending[j']);
    }
  }

  /** What comes back is what the file holds, so a buffer read as a whole mirrors the file. */
  lemma ArrivedGood(w: World, i: nat, r: Pending, p: nat)
    requires Wf(w.cs) && AllGood(w) && ReadOk(w, r) && i < |w.cs| && w.cs[i].offset == r.key && w.cs[i].Holds(p)
    requires Fits(w.cs[i], r.offset, |r.data|) && 0 < w.cs[i].mb.inuse
    ensures var d := Arrived(w.cs[i], r.offset, r.data);
            && SameShape(w.cs[i], d) && !Dirtyish(d) && !Dirtyish(w.cs[i]) && d.FlagsOk() && !d.mb.locked
            && !d.mb.flushing && !d.mb.truncated && (d.mb.uptodate ==> d.At(p) == w.file(p))
  {
    hide Copy;
    var j :| 0 <= j < |w.cs| && Reads(w.cs[j], r);
    OneHolder(w.cs, i, j, r.key);
    CopyAt(w.cs[i], r.offset, r.data, p);
    assert Good(w, w.cs[i]);
  }

  lemma KeepsReadDone(w: World, ev: Event)
    requires Coherent(w) && Enabled(w, ev) && ev.ReadDone?
    ensures Coherent(Next(w, ev))
  {
    hide Arrived;
    var w', c, r := Next(w, ev), w.cs[ev.i], w.pending[ev.k];
    var d := Arrived(c, r.offset, r.data);
    ArrivedGood(w, ev.i, r, c.offset);
    forall p | c.Holds(p) ensures OnServer(w', p) && (d.mb.uptodate ==> d.At(p) == w'.file(p)) {
      ArrivedGood(w, ev.i, r, p);
      CleanIsSaved(w, ev.i, p);
    }
    OneChunk(w, w', ev.i, d);
    ReadGone(w, w', ev.i, d, ev.k);
  }

  /** A shorter part of what a read brings is as good. */
  lemma ShortRead(w: World, k: nat, n: nat)
    requires Coherent(w) && k < |w.pending| && n <= |w.pending[k].data|
    ensures Coherent(w.(pending := w.pending[k := w.pending[k].(data := w.pending[k].data[..n])]))
  {
    hide Good, NothingLost;
    var r := w.pending[k];
    var w' := w.(pending := w.pending[k := r.(data := r.data[..n])]);
    forall i | 0 <= i < |w.cs| ensures Good(w', w.cs[i]) { SameGood(w, w', w.cs[i]); }
    assert NothingLost(w') by { SameSaved(w, w'); }
    forall j | 0 <= j < |w'.pending| ensures ReadOk(w', w'.pending[j]) {
      assert ReadOk(w, w.pending[j]);
      var i :| 0 <= i < |w.cs| && Reads(w.cs[i], w.pending[j]);
      assert Reads(w'.cs[i], w'.pending[j]);
    }
  }

  lemma SameGood(w: World, w': World, c: Chunk)
    requires c.Ok() && Good(w, c) && w' == w.(cs := w'.cs, pending := w'.pending, sweep := w'.sweep)
    ensures Good(w', c)
  {
  }

  lemma SameSaved(w: World, w': World)
    requires NothingLost(w) && w' == w.(pending := w'.pending, sweep := w'.sweep)
    ensures NothingLost(w')
  {
    forall o | !w'.Unsaved(o) ensures OnServer(w', o) { assert !w.Unsaved(o) && OnServer(w, o); }
  }

  /** A clean chunk, all of whose bytes show the file, may count as uptodate. */
  lemma MarkUptodate(w: World, i: nat)
    requires Coherent(w) && i < |w.cs| && !Dirtyish(w.cs[i]) && !w.cs[i].mb.locked && Mirrors(w.cs[i], w.file)
    ensures Coherent(w.(cs := w.cs[i := w.cs[i].(mb := w.cs[i].mb.(uptodate := true))]))
  {
    hide NothingLost, ReadsOk;
    var d := w.cs[i].(mb := w.cs[i].mb.(uptodate := true));
    var w' := w.(cs := w.cs[i := d]);
    assert Good(w, w.cs[i]);
    forall o | d.Holds(o) ensures OnServer(w', o) && d.At(o) == w.cs[i].At(o) { CleanIsSaved(w, i, o); }
    OneChunk(w, w', i, d);
    ReadsKept(w, w', i, d);
  }

  lemma CutTail(cs: seq<Chunk>, i: nat, n: nat)
    requires Wf(cs) && i < |cs| && 0 < n <= cs[i].length && cs[i].SafeToRelease()
    ensures Sheds(cs, cs[i := cs[i].(length := n)])
  {
    var d := cs[i].(length := n);
    var r := cs[i := d];
    forall x | x in r ensures exists k :: 0 <= k < |cs| && WindowOf(x, cs[k]) {
      var k :| 0 <= k < |r| && r[k] == x;
      assert WindowOf(x, cs[k]);
    }
    forall k | 0 <= k < |cs| && !cs[k].SafeToRelease() ensures cs[k] in r { assert r[k] == cs[k]; }
  }

  lemma KeepsReadEof(w: World, ev: Event)
    requires Coherent(w) && Enabled(w, ev) && ev.ReadEof?
    ensures Coherent(Next(w, ev))
  {
    hide Coherent, Arrived, Sheds;
    var i, k, n := ev.i, ev.k, ev.n;
    var r, c := w.pending[k], w.cs[i];
    var w0 := w.(pending := w.pending[k := r.(data := r.data[..n])]);
    ShortRead(w, k, n);
    var w1 := Next(w0, ReadDone(i, k));
    KeepsReadDone(w0, ReadDone(i, k));
    assert w0.pending[..k] + w0.pending[k + 1..] == w.pending[..k] + w.pending[k + 1..];
    var d := Arrived(c, r.offset, r.data[..n]);
    if d.SafeToRelease() {
      ArrivedShortFacts(w0, i, k);
      var cs2 := w1.cs[i := d.(length := n)];
      CutTail(w1.cs, i, n) by { CoherentWf(w1); }
      KeepsShed(w1, cs2);
      var w2 := w1.(cs := cs2);
      MarkUptodate(w2, i);
      assert w2.cs[i := w2.cs[i].(mb := w2.cs[i].mb.(uptodate := true))]
             == w.cs[i := d.(length := n, mb := d.mb.(uptodate := true))];
    }
  }

  /** What has arrived shows the file, as far as it goes. */
  lemma ArrivedShortFacts(w: World, i: nat, k: nat)
    requires Coherent(w) && Enabled(w, ReadDone(i, k)) && w.pending[k].offset == w.cs[i].offset
    requires 0 < |w.pending[k].data|
    ensures var n, d := |w.pending[k].data|, Arrived(w.cs[i], w.pending[k].offset, w.pending[k].data);
            && d.Ok() && n <= d.length == w.cs[i].length && !d.mb.locked && !Dirtyish(d)
            && d.(length := n).Ok() && Mirrors(d.(length := n), w.file)
  {
    hide Copy;
    var c, r := w.cs[i], w.pending[k];
    ArrivedGood(w, i, r, c.offset);
    var d := Arrived(c, r.offset, r.data);
    forall p | d.(length := |r.data|).Holds(p) ensures d.(length := |r.data|).At(p) == w.file(p) {
      CopyAt(c, r.offset, r.data, p);
      assert ReadOk(w, r);
    }
  }

  lemma KeepsFlushStart(w: World, ev: Event)
    requires Coherent(w) && Enabled(w, ev) && ev.FlushStart?
    ensures Coherent(Next(w, ev))
  {
    hide ReadsOk;
    var w', c := Next(w, ev), w.cs[ev.i];
    var d := c.(mb := c.mb.(locked := true, flushing := true));
    OneChunk(w, w', ev.i, d);
    ReadsKept(w, w', ev.i, d);
  }

  lemma KeepsServerWrites(w: World, ev: Event)
    requires Coherent(w) && Enabled(w, ev) && ev.ServerWrites?
    ensures Coherent(Next(w, ev))
  {
    hide ReadsOk;
    var w', c := Next(w, ev), w.cs[ev.i];
    assert w'.cs == w.cs[ev.i := c];
    OneChunk(w, w', ev.i, c);
    ReadsKept(w, w', ev.i, c);
  }

  lemma KeepsFlushDone(w: World, ev: Event)
    requires Coherent(w) && Enabled(w, ev) && ev.FlushDone?
    ensures Coherent(Next(w, ev))
  {
    hide ReadsOk;
    var w', c := Next(w, ev), w.cs[ev.i];
    var d := Flushed(c, w.stable);
    forall o | c.Holds(o) ensures w'.View(o) == w'.file(o) && (w.stable ==> OnServer(w', o)) {
      assert c.At(o) == w.file(o);
    }
    OneChunk(w, w', ev.i, d);
    ReadsKept(w, w', ev.i, d);
  }

  lemma KeepsServerSaves(w: World, ev: Event)
    requires Coherent(w) && Enabled(w, ev) && ev.ServerSaves?
    ensures Coherent(Next(w, ev))
  {
    var w' := Next(w, ev);
    forall o ensures w'.View(o) == w.View(o) && (w'.disk(o) == w.disk(o) || w'.disk(o) == w.View(o)) {
    }
    forall i | 0 <= i < |w.cs| ensures Good(w', w.cs[i]) { assert Good(w, w.cs[i]); }
    forall o | !w'.Unsaved(o) ensures OnServer(w', o) {
      assert !w.Unsaved(o) && OnServer(w, o);
    }
    forall k | 0 <= k < |w.pending| ensures ReadOk(w', w.pending[k]) { assert ReadOk(w, w.pending[k]); }
  }

  /** A step on all chunks at once that leaves their places alone and does not touch a chunk being read. */
  ghost predicate Everywhere(w: World, w': World) {
    && |w'.cs| == |w.cs| && w'.pending == w.pending && w'.file == w.file
    && (forall i :: 0 <= i < |w.cs| ==> w'.cs[i].(mb := w.cs[i].mb) == w.cs[i])
    && (forall i :: 0 <= i < |w.cs| ==> w'.cs[i].mb.initialOffset == w.cs[i].mb.initialOffset)
    && (forall i :: 0 <= i < |w.cs| ==> w'.cs[i].mb.buffer == w.cs[i].mb.buffer)
    && (forall i :: 0 <= i < |w.cs| && !w.cs[i].mb.commitPending ==> w'.cs[i] == w.cs[i])
  }

  lemma EverywhereReads(w: World, w': World)
    requires Wf(w.cs) && AllGood(w) && ReadsOk(w) && Everywhere(w, w')
    ensures Wf(w'.cs) && ReadsOk(w')
  {
    forall k | 0 <= k < |w.pending| ensures ReadOk(w', w.pending[k]) {
      assert ReadOk(w, w.pending[k]);
      var j :| 0 <= j < |w.cs| && Reads(w.cs[j], w.pending[k]);
      assert Good(w, w.cs[j]);
      assert Reads(w'.cs[j], w.pending[k]);
    }
  }

  /** A chunk that was dirty or commit pending before still is, or what it holds is on the server. */
  lemma EverywhereSaved(w: World, w': World, o: nat)
    requires Wf(w.cs) && NothingLost(w) && Everywhere(w, w') && !w'.Unsaved(o)
    requires OnServer(w, o) ==> OnServer(w', o)
    requires forall i :: 0 <= i < |w.cs| && w.cs[i].Holds(o) && w.cs[i].mb.commitPending ==>
               Dirtyish(w'.cs[i]) || OnServer(w', o)
    ensures OnServer(w', o)
  {
    if w.Unsaved(o) {
      var i :| 0 <= i < |w.cs| && w.cs[i].Holds(o) && Dirtyish(w.cs[i]);
      assert w'.cs[i].Holds(o);
    } else {
      assert OnServer(w, o);
    }
  }

  lemma KeepsCommitStart(w: World, ev: Event)
    requires Coherent(w) && Enabled(w, ev) && ev.CommitStart?
    ensures Coherent(Next(w, ev))
  {
    hide ReadsOk;
    var w' := Next(w, ev);
    assert Everywhere(w, w');
    EverywhereReads(w, w');
    forall i | 0 <= i < |w.cs| ensures Good(w', w'.cs[i]) { assert Good(w, w.cs[i]); }
    forall o | !w'.Unsaved(o) ensures OnServer(w', o) { EverywhereSaved(w, w', o); }
  }

  lemma KeepsCommitDone(w: World)
    requires Coherent(w) && w.committing && w.VerifiersMatch()
    ensures Coherent(CommitEffect(w))
  {
    hide ReadsOk;
    var w' := CommitEffect(w);
    assert Everywhere(w, w');
    EverywhereReads(w, w');
    forall o ensures w'.View(o) == w.View(o) == w'.disk(o) {}
    forall i | 0 <= i < |w.cs| ensures Good(w', w'.cs[i]) { assert Good(w, w.cs[i]); }
    forall o | !w'.Unsaved(o) ensures OnServer(w', o) {
      forall i | 0 <= i < |w.cs| && w.cs[i].Holds(o) && w.cs[i].mb.commitPending ensures OnServer(w', o) {
        assert Good(w, w.cs[i]);
      }
      EverywhereSaved(w, w', o);
    }
  }

  lemma KeepsRedirty(w: World, ev: Event)
    requires Coherent(w) && Enabled(w, ev) && (ev.CommitFail? || ev.SwitchToStable?)
    ensures Coherent(Next(w, ev))
  {
    hide ReadsOk;
    var w' := Next(w, ev);
    forall i | 0 <= i < |w.cs| ensures Good(w', w'.cs[i]) && (w.cs[i].mb.commitPending ==> Dirtyish(w'.cs[i])) {
      assert Good(w, w.cs[i]);
    }
    assert Everywhere(w, w');
    EverywhereReads(w, w');
    forall o | !w'.Unsaved(o) ensures OnServer(w', o) { EverywhereSaved(w, w', o); }
  }

  lemma KeepsGet(w: World, ev: Event)
    requires Coherent(w) && Enabled(w, ev) && ev.Get?
    ensures Coherent(Next(w, ev))
  {
    hide Get.FillFrom, Good;
    var w' := Next(w, ev);
    Get.FillWf(w.cs, ev.lo, ev.hi, ev.junk);
    forall d | d in w'.cs ensures d.Ok() && Good(w', d) { GetGood(w, ev, d); }
    forall o | !w'.Unsaved(o) ensures OnServer(w', o) { GetSaved(w, ev, o); }
    forall k | 0 <= k < |w.pending| ensures ReadOk(w', w.pending[k]) {
      assert ReadOk(w, w.pending[k]);
      var j: nat :| j < |w.cs| && Reads(w.cs[j], w.pending[k]);
      Get.FillKeepsOld(w.cs, 0, ev.lo, ev.hi, ev.junk, j);
      assert Reads(Get.Touch(w.cs[j], ev.lo, ev.hi), w.pending[k]);
    }
  }

  lemma GetGood(w: World, ev: Event, d: Chunk)
    requires Coherent(w) && Enabled(w, ev) && ev.Get? && d in Next(w, ev).cs
    ensures d.Ok() && Good(Next(w, ev), d)
  {
    hide Get.FillFrom, Get.Fresh, Good;
    Get.FillWf(w.cs, ev.lo, ev.hi, ev.junk);
    Get.FillAddsOnlyGaps(w.cs, 0, ev.lo, ev.hi, ev.junk, d);
    if Get.FromOld(w.cs, 0, ev.lo, ev.hi, d) {
      var k :| 0 <= k < |w.cs| && d == Get.Touch(w.cs[k], ev.lo, ev.hi);
      TouchedGood(w, Next(w, ev), w.cs[k], d);
    } else {
      FreshGood(w, Next(w, ev), ev.lo, ev.hi, ev.junk, d);
    }
  }

  lemma TouchedGood(w: World, w': World, c: Chunk, d: Chunk)
    requires c.Ok() && Good(w, c) && (d == c || d == Use(c)) && w' == w.(cs := w'.cs)
    ensures d.Ok() && Good(w', d)
  {
    forall o | d.Holds(o) ensures d.At(o) == c.At(o) {}
  }

  lemma FreshGood(w: World, w': World, lo: nat, hi: nat, junk: nat -> byte, d: Chunk)
    requires d.Ok() && Get.Fresh(w.cs, lo, hi, junk, d)
    ensures Good(w', d)
  {
  }

  lemma GetSaved(w: World, ev: Event, o: nat)
    requires Coherent(w) && Enabled(w, ev) && ev.Get? && !Next(w, ev).Unsaved(o)
    ensures OnServer(Next(w, ev), o)
  {
    hide Get.FillFrom;
    var w' := Next(w, ev);
    forall k: nat | k < |w.cs| && w.cs[k].Holds(o) ensures !Dirtyish(w.cs[k]) {
      Get.FillKeepsOld(w.cs, 0, ev.lo, ev.hi, ev.junk, k);
      var d := Get.Touch(w.cs[k], ev.lo, ev.hi);
      var j :| 0 <= j < |w'.cs| && w'.cs[j] == d;
      assert w'.cs[j].Holds(o);
    }
    assert !w.Unsaved(o);
    assert OnServer(w, o);
  }

  /** r is what may be left of cs: windows of its chunks, and all of every chunk that is not safe to release. */
  ghost predicate Sheds(cs: seq<Chunk>, r: seq<Chunk>) {
    && Wf(r)
    && (forall d :: d in r ==> exists k :: 0 <= k < |cs| && WindowOf(d, cs[k]))
    && (forall k :: 0 <= k < |cs| && !cs[k].SafeToRelease() ==> cs[k] in r)
  }

  predicate WindowOf(d: Chunk, c: Chunk) {
    d.mb == c.mb && c.offset <= d.offset && d.End() <= c.End()
  }

  /** The first pass of a release only trims chunks that are safe. */
  lemma TrimSheds(cs: seq<Chunk>, m: seq<Chunk>, lo: nat, hi: nat)
    requires Wf(cs) && Release.Trimmed(cs, m, lo, hi)
    ensures Sheds(cs, m)
  {
    Release.MidWf(cs, m, m, lo, hi);
    forall d | d in m ensures exists k :: 0 <= k < |cs| && WindowOf(d, cs[k]) {
      var k :| 0 <= k < |m| && d == m[k];
      assert m[k] == Release.Trim(cs[k], lo, hi);
      assert WindowOf(d, cs[k]);
    }
    forall k | 0 <= k < |cs| && !cs[k].SafeToRelease() ensures cs[k] in m { assert m[k] == cs[k]; }
  }

  /** The second pass only erases chunks that are safe when it looks at them. */
  lemma SweepSheds(m: seq<Chunk>, b: nat, e: nat)
    requires Wf(m)
    ensures Sheds(m, Release.SweepFrom(m, 0, b, e))
  {
    Release.SweepWf(m, 0, b, e);
    var r := Release.SweepFrom(m, 0, b, e);
    forall d | d in r ensures exists k :: 0 <= k < |m| && WindowOf(d, m[k]) {
      Release.SweepOrigin(m, 0, b, e, d);
      var k :| 0 <= k < |m| && d == m[k] && !Release.Swept(m, k, b, e);
      assert WindowOf(d, m[k]);
    }
    forall k: nat | k < |m| && !m[k].SafeToRelease() ensures m[k] in r {
      Release.SweepKeeps(m, 0, b, e, k);
    }
  }

  lemma PruneSheds(cs: seq<Chunk>, keep: Chunk -> bool, goal: int)
    requires Wf(cs)
    ensures Sheds(cs, Cache.PruneFrom(cs, 0, keep, goal, 0))
  {
    hide Cache.PruneFrom;
    Cache.PruneKeeps(cs, 0, keep, goal, 0);
    assert cs[0..] == cs;
    forall d | d in Cache.PruneFrom(cs, 0, keep, goal, 0) ensures exists k :: 0 <= k < |cs| && WindowOf(d, cs[k]) {
      var k :| 0 <= k < |cs| && cs[k] == d;
      assert WindowOf(d, cs[k]);
    }
  }

  lemma ShedGood(w: World, r: seq<Chunk>, d: Chunk)
    requires Coherent(w) && Sheds(w.cs, r) && d in r
    ensures Good(w.(cs := r), d)
  {
    var k :| 0 <= k < |w.cs| && WindowOf(d, w.cs[k]);
    var c := w.cs[k];
    assert Good(w, c);
    forall o | d.Holds(o) ensures c.Holds(o) && d.At(o) == c.At(o) {}
  }

  lemma ShedSaved(w: World, r: seq<Chunk>, o: nat)
    requires NothingLost(w) && Sheds(w.cs, r) && !w.(cs := r).Unsaved(o)
    ensures OnServer(w.(cs := r), o)
  {
    forall k | 0 <= k < |w.cs| && w.cs[k].Holds(o) ensures !Dirtyish(w.cs[k]) {
      if w.cs[k] in r {
        var j :| 0 <= j < |r| && r[j] == w.cs[k];
        assert w.(cs := r).cs[j].Holds(o);
      }
    }
    assert OnServer(w, o);
  }

  lemma ShedRead(w: World, r: seq<Chunk>, p: Pending)
    requires Wf(w.cs) && AllGood(w) && Sheds(w.cs, r) && ReadOk(w, p)
    ensures ReadOk(w.(cs := r), p)
  {
    var j :| 0 <= j < |w.cs| && Reads(w.cs[j], p);
    assert Good(w, w.cs[j]);
    var i :| 0 <= i < |r| && r[i] == w.cs[j];
  }

  /** Dropping clean data that nobody uses loses nothing. */
  lemma KeepsShed(w: World, r: seq<Chunk>)
    requires Coherent(w) && Sheds(w.cs, r)
    ensures Coherent(w.(cs := r))
  {
    hide Good, ReadOk;
    var w' := w.(cs := r);
    forall d | d in r ensures Good(w', d) { ShedGood(w, r, d); }
    forall o | !w'.Unsaved(o) ensures OnServer(w', o) { ShedSaved(w, r, o); }
    forall k | 0 <= k < |w.pending| ensures ReadOk(w', w.pending[k]) { ShedRead(w, r, w.pending[k]); }
  }

  /** Every step, of whichever thread or of the server, keeps the cache coherent. */
  lemma Keeps(w: World, ev: Event)
    requires Coherent(w) && Enabled(w, ev)
    ensures Coherent(Next(w, ev))
  {
    hide Coherent;
    match ev
    case Get(_, _, _) => KeepsGet(w, ev);
    case Hold(_) => KeepsHeld(w, ev);
    case Drop(_) => KeepsHeld(w, ev);
    case Lock(_) => KeepsHeld(w, ev);
    case Unlock(_) => KeepsHeld(w, ev);
    case Write(_, _, _) => KeepsWrite(w, ev);
    case ReadStart(_, _, _) => KeepsReadStart(w, ev);
    case ReadDone(_, _) => KeepsReadDone(w, ev);
    case ReadEof(_, _, _) => KeepsReadEof(w, ev);
    case Zero(_, _, _) => KeepsZero(w, ev);
    case FlushStart(_) => KeepsFlushStart(w, ev);
    case ServerWrites(_, _) => KeepsServerWrites(w, ev);
    case FlushDone(_) => KeepsFlushDone(w, ev);
    case ServerSaves(_) => KeepsServerSaves(w, ev);
    case CommitStart => KeepsCommitStart(w, ev);
    case CommitDone => KeepsCommitDone(w);
    case CommitFail => KeepsRedirty(w, ev);
    case SwitchToStable => KeepsRedirty(w, ev);
    case ReleaseFirst(lo, hi, m, b, e) =>
      CoherentWf(w);
      TrimSheds(w.cs, m, lo, hi);
      KeepsShed(w, m);
      KeepsSweep(w.(cs := m), Some((b, e)));
    case ReleaseSecond =>
      CoherentWf(w);
      SweepSheds(w.cs, w.sweep.value.0, w.sweep.value.1);
      KeepsShed(w, Release.SweepFrom(w.cs, 0, w.sweep.value.0, w.sweep.value.1));
      KeepsSweep(w.(cs := Release.SweepFrom(w.cs, 0, w.sweep.value.0, w.sweep.value.1)), None);
    case Restart => KeepsRestart(w);
    case Prune(keep, goal) =>
      CoherentWf(w);
      PruneSheds(w.cs, keep, goal);
      KeepsShed(w, Cache.PruneFrom(w.cs, 0, keep, goal, 0));
  }

  lemma KeepsSweep(w: World, sweep: Option<(nat, nat)>)
    requires Coherent(w)
    ensures Coherent(w.(sweep := sweep))
  {
    hide Good, ReadsOk, NothingLost;
    var w' := w.(sweep := sweep);
    forall i | 0 <= i < |w.cs| ensures Good(w', w.cs[i]) { SameGood(w, w', w.cs[i]); }
    SameSaved(w, w');
    SameReads(w, w');
  }

  lemma SameReads(w: World, w': World)
    requires ReadsOk(w) && w'.cs == w.cs && w'.pending == w.pending && w'.file == w.file
    ensures ReadsOk(w')
  {
    forall k | 0 <= k < |w.pending| ensures ReadOk(w', w.pending[k]) { assert ReadOk(w, w.pending[k]); }
  }

  /** A restart loses nothing that the cache does not still hold as dirty or commit pending. */
  lemma KeepsRestart(w: World)
    requires Coherent(w)
    ensures Coherent(Restarted(w))
  {
    hide ReadsOk;
    var w' := Restarted(w);
    forall i | 0 <= i < |w.cs| ensures Good(w', w.cs[i]) {
      assert Good(w, w.cs[i]);
      assert w.verf(w.cs[i].offset) <= w.epoch;
    }
    forall o | !w'.Unsaved(o) ensures OnServer(w', o) { assert !w.Unsaved(o) && OnServer(w, o); }
    SameReads(w, w');
  }

  lemma CoherentWf(w: World)
    requires Coherent(w)
    ensures Wf(w.cs)
  {
  }

  // ---------------------------------------------------------------- the steps keep to the rules for buffers

  /** The flag methods may be called one after the other, none of them failing an assertion. */
  ghost predicate Runs(ops: seq<Cache.Op>, mb: Membuf) {
    ops == [] || (Cache.Allowed(ops[0], mb) && Runs(ops[1..], Cache.Apply(ops[0], mb)))
  }

  ghost function After(ops: seq<Cache.Op>, mb: Membuf): Membuf
    requires Runs(ops, mb)
  {
    if ops == [] then mb else After(ops[1..], Cache.Apply(ops[0], mb))
  }

  lemma RunsCons(op: Cache.Op, ops: seq<Cache.Op>, mb: Membuf)
    requires Cache.Allowed(op, mb) && Runs(ops, Cache.Apply(op, mb))
    ensures Runs([op] + ops, mb) && After([op] + ops, mb) == After(ops, Cache.Apply(op, mb))
  {
    assert ([op] + ops)[1..] == ops;
  }

  ghost const COPY := [Cache.Lock] + ([Cache.SetUptodate] + ([Cache.SetDirty] + ([Cache.ClearLocked] + [])))
  ghost const RELEASE := [Cache.ClearLocked] + ([Cache.ClearInuse] + [])
  ghost const FLUSH := [Cache.Lock] + ([Cache.SetFlushing] + [])

  lemma Releases(mb: Membuf)
    requires mb.locked && !mb.flushing && 0 < mb.inuse
    ensures Runs(RELEASE, mb) && After(RELEASE, mb) == mb.(locked := false, inuse := mb.inuse - 1)
  {
    var m1 := Cache.Apply(Cache.ClearLocked, mb);
    RunsCons(Cache.ClearInuse, [], m1);
    RunsCons(Cache.ClearLocked, [Cache.ClearInuse] + [], mb);
  }

  /** A writer's copy: lock, mark uptodate and dirty, unlock. */
  lemma WriteKeepsRules(w: World, ev: Event)
    requires Coherent(w) && Enabled(w, ev) && ev.Write?
    ensures var mb := Copy(w.cs[ev.i], ev.o, ev.data).mb;
            Runs(COPY, mb) && After(COPY, mb) == Written(w.cs[ev.i], ev.o, ev.data).mb
  {
    hide Copy;
    var c := w.cs[ev.i];
    assert Good(w, c);
    CopyAt(c, ev.o, ev.data, c.offset);
    var m0 := Copy(c, ev.o, ev.data).mb;
    var m1 := Cache.Apply(Cache.Lock, m0);
    var m2 := Cache.Apply(Cache.SetUptodate, m1);
    var m3 := Cache.Apply(Cache.SetDirty, m2);
    RunsCons(Cache.ClearLocked, [], m3);
    RunsCons(Cache.SetDirty, [Cache.ClearLocked] + [], m2);
    RunsCons(Cache.SetUptodate, [Cache.SetDirty] + ([Cache.ClearLocked] + []), m1);
    RunsCons(Cache.Lock, [Cache.SetUptodate] + ([Cache.SetDirty] + ([Cache.ClearLocked] + [])), m0);
  }

  /** A flush: lock and mark flushing; when it ends, clear dirty and flushing, mark commit pending unless stable, let go. */
  lemma FlushKeepsRules(w: World, i: nat)
    requires Coherent(w) && i < |w.cs|
    ensures Enabled(w, FlushStart(i)) ==>
              Runs(FLUSH, w.cs[i].mb) && After(FLUSH, w.cs[i].mb) == Next(w, FlushStart(i)).cs[i].mb
    ensures Enabled(w, FlushDone(i)) ==>
              var ops := [Cache.ClearDirty] + ([Cache.ClearFlushing]
                         + if w.stable then RELEASE else [Cache.SetCommitPending] + RELEASE);
              Runs(ops, w.cs[i].mb) && After(ops, w.cs[i].mb) == Next(w, FlushDone(i)).cs[i].mb
  {
    var m0 := w.cs[i].mb;
    assert Good(w, w.cs[i]);
    if Enabled(w, FlushStart(i)) {
      RunsCons(Cache.SetFlushing, [], Cache.Apply(Cache.Lock, m0));
      RunsCons(Cache.Lock, [Cache.SetFlushing] + [], m0);
    }
    if Enabled(w, FlushDone(i)) {
      var m1 := Cache.Apply(Cache.ClearDirty, m0);
      var m2 := Cache.Apply(Cache.ClearFlushing, m1);
      if w.stable {
        Releases(m2);
        RunsCons(Cache.ClearFlushing, RELEASE, m1);
        RunsCons(Cache.ClearDirty, [Cache.ClearFlushing] + RELEASE, m0);
      } else {
        Releases(Cache.Apply(Cache.SetCommitPending, m2));
        RunsCons(Cache.SetCommitPending, RELEASE, m2);
        RunsCons(Cache.ClearFlushing, [Cache.SetCommitPending] + RELEASE, m1);
        RunsCons(Cache.ClearDirty, [Cache.ClearFlushing] + ([Cache.SetCommitPending] + RELEASE), m0);
      }
    }
  }

  /** A commit: hold and lock what is pending; when it ends, clear the mark, dirty the chunk again if it failed, let go. */
  lemma CommitKeepsRules(w: World, i: nat, ok: bool)
    requires Coherent(w) && i < |w.cs| && w.cs[i].mb.commitPending
    ensures Enabled(w, CommitStart) ==>
              var ops := [Cache.SetInuse] + ([Cache.Lock] + []);
              Runs(ops, w.cs[i].mb) && After(ops, w.cs[i].mb) == Committing(w.cs[i]).mb
    ensures w.committing ==>
              var ops := [Cache.ClearCommitPending] + if ok then RELEASE else [Cache.SetDirty] + RELEASE;
              Runs(ops, w.cs[i].mb) && After(ops, w.cs[i].mb) == Committed(w.cs[i], ok).mb
  {
    var m0 := w.cs[i].mb;
    assert Good(w, w.cs[i]);
    if Enabled(w, CommitStart) {
      RunsCons(Cache.Lock, [], Cache.Apply(Cache.SetInuse, m0));
      RunsCons(Cache.SetInuse, [Cache.Lock] + [], m0);
    }
    if w.committing {
      var m1 := Cache.Apply(Cache.ClearCommitPending, m0);
      if ok {
        Releases(m1);
        RunsCons(Cache.ClearCommitPending, RELEASE, m0);
      } else {
        Releases(Cache.Apply(Cache.SetDirty, m1));
        RunsCons(Cache.SetDirty, RELEASE, m1);
        RunsCons(Cache.ClearCommitPending, [Cache.SetDirty] + RELEASE, m0);
      }
    }
  }

  /** A read: lock; when the data has arrived, mark uptodate if the whole chunk was read, let go. */
  lemma ReadKeepsRules(w: World, ev: Event)
    requires Coherent(w) && Enabled(w, ev) && ev.ReadDone?
    ensures var c, r := w.cs[ev.i], w.pending[ev.k];
            var mb := Copy(c, r.offset, r.data).mb;
            var ops := (if Whole(c, r.offset, |r.data|) then [Cache.SetUptodate] + RELEASE else RELEASE);
            Runs(ops, mb) && After(ops, mb) == Arrived(c, r.offset, r.data).mb
  {
    hide Copy;
    var c, r := w.cs[ev.i], w.pending[ev.k];
    assert Good(w, c) && ReadOk(w, r);
    var j :| 0 <= j < |w.cs| && Reads(w.cs[j], r);
    OneHolder(w.cs, ev.i, j, r.key);
    CopyAt(c, r.offset, r.data, c.offset);
    var m0 := Copy(c, r.offset, r.data).mb;
    if Whole(c, r.offset, |r.data|) {
      Releases(Cache.Apply(Cache.SetUptodate, m0));
      RunsCons(Cache.SetUptodate, RELEASE, m0);
    } else {
      Releases(m0);
    }
  }
}
