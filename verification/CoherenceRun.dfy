/**
  Whole runs of the system in `Coherence`: what every state of every run keeps, and two ways in which
  the code can leave it.
 */
module CoherenceRun {
  import opened Chunks
  import opened Options
  import opened Coherence

  // ---------------------------------------------------------------- whole runs

  /** Nothing cached, nothing under way, all of the file in the server's stable storage. */
  ghost predicate Initial(w: World) {
    && w.cs == [] && w.pending == [] && !w.committing && w.sweep == None && w.epoch == 0 && (forall k :: w.verf(k) == 0)
    && forall o :: w.disk(o) == w.file(o) && w.mem(o) == None
  }

  ghost predicate Run(ws: seq<World>, evs: seq<Event>) {
    && |ws| == |evs| + 1 && Initial(ws[0])
    && forall k :: 0 <= k < |evs| ==> Enabled(ws[k], evs[k]) && ws[k + 1] == Next(ws[k], evs[k])
  }

  /** The logical file: the last value the application wrote, else what was there at the start. */
  ghost function Logical(start: nat -> byte, evs: seq<Event>): nat -> byte {
    if evs == [] then start
    else
      var f, ev := Logical(start, evs[..|evs| - 1]), evs[|evs| - 1];
      if ev.Write? then Put(f, ev.o, ev.data) else f
  }

  lemma {:induction false} RunCoherent(ws: seq<World>, evs: seq<Event>)
    requires Run(ws, evs)
    ensures Coherent(ws[|evs|]) && ws[|evs|].file == Logical(ws[0].file, evs)
    decreases |evs|
  {
    if evs == [] {
      assert Distinct(ws[0].pending);
    } else {
      var n := |evs| - 1;
      RunCoherent(ws[..n + 1], evs[..n]);
      assert Enabled(ws[n], evs[n]);
      Keeps(ws[n], evs[n]);
    }
  }

  /**
    In every state of every run: an uptodate chunk shows what was last written; a read of the server
    brings what was last written; a byte in no dirty or commit-pending chunk is in the server's stable
    storage with its last value; so when nothing is dirty or commit pending, all of the file is.
   */
  lemma NoLostWriteNoStaleRead(ws: seq<World>, evs: seq<Event>, n: nat)
    requires Run(ws, evs) && n <= |evs|
    ensures var w, f := ws[n], Logical(ws[0].file, evs[..n]);
            && Wf(w.cs)
            && (forall i, o :: 0 <= i < |w.cs| && w.cs[i].mb.uptodate && w.cs[i].Holds(o) ==> w.cs[i].At(o) == f(o))
            && (forall o :: !w.Unsaved(o) ==> w.disk(o) == f(o) && w.View(o) == f(o))
            && ((forall i :: 0 <= i < |w.cs| ==> !Dirtyish(w.cs[i])) ==> forall o :: w.disk(o) == f(o))
  {
    RunCoherent(ws[..n + 1], evs[..n]);
    var w := ws[n];
    forall i, o | 0 <= i < |w.cs| && w.cs[i].mb.uptodate && w.cs[i].Holds(o) ensures w.cs[i].At(o) == w.file(o) {
      assert Good(w, w.cs[i]);
    }
    if forall i :: 0 <= i < |w.cs| ==> !Dirtyish(w.cs[i]) {
      forall o ensures w.disk(o) == w.file(o) { assert !w.Unsaved(o) && OnServer(w, o); }
    }
  }

  // ---------------------------------------------------------------- two ways to lose it

  ghost function OtherServer(w: World, disk: nat -> byte, mem: nat -> Option<byte>): World {
    w.(disk := disk, mem := mem)
  }

  /** The commit callback's success path is right whatever the server, as far as the client can tell, has kept. */
  ghost predicate CommitSafe(w: World) {
    forall disk, mem :: Coherent(OtherServer(w, disk, mem)) ==> Coherent(CommitEffect(OtherServer(w, disk, mem)))
  }

  /** The server has another byte than the file at o, in stable storage and nowhere else. */
  ghost function Spoilt(w: World, o: nat, kept: Option<byte>): World {
    var wrong: byte := if w.file(o) == 0 then 1 else 0;
    OtherServer(w, (p: nat) => if p == o then wrong else w.disk(p), (p: nat) => if p == o then kept else w.mem(p))
  }

  /** A byte of a commit-pending chunk may be missing on the server if the verifier has changed, or is only in memory. */
  lemma SpoiltCoherent(w: World, i: nat, kept: Option<byte>)
    requires Coherent(w) && i < |w.cs| && w.cs[i].mb.commitPending
    requires w.verf(w.cs[i].offset) != w.epoch || kept == Some(w.file(w.cs[i].offset))
    ensures Coherent(Spoilt(w, w.cs[i].offset, kept))
  {
    hide ReadsOk;
    var c, o := w.cs[i], w.cs[i].offset;
    var w' := Spoilt(w, o, kept);
    assert w'.cs == w.cs[i := c] && Good(w, c);
    forall p | c.Holds(p) && w.verf(o) == w.epoch ensures w'.View(p) == w'.file(p) {}
    OneChunk(w, w', i, c);
    SameReads(w, w');
  }

  /** After the commit nothing but the server has the byte, and the server does not have it. */
  lemma SpoiltCommit(w: World, i: nat)
    requires Coherent(w) && w.committing && i < |w.cs| && w.cs[i].mb.commitPending
    ensures !Coherent(CommitEffect(Spoilt(w, w.cs[i].offset, None)))
  {
    var o := w.cs[i].offset;
    var w' := CommitEffect(Spoilt(w, o, None));
    assert Good(w, w.cs[i]);
    forall j | 0 <= j < |w'.cs| && w'.cs[j].Holds(o) ensures !Dirtyish(w'.cs[j]) {
      OneHolder(w.cs, i, j, o);
    }
    assert !w'.Unsaved(o) && !OnServer(w', o);
  }

  /**
    The commit callback may take a COMMIT for good if and only if every commit-pending chunk's WRITE was
    answered with the verifier that the COMMIT is answered with.
   */
  lemma CommitSafeIff(w: World)
    requires Coherent(w) && w.committing
    ensures CommitSafe(w) <==> w.VerifiersMatch()
  {
    hide Coherent;
    if w.VerifiersMatch() {
      forall disk, mem | Coherent(OtherServer(w, disk, mem))
        ensures Coherent(CommitEffect(OtherServer(w, disk, mem)))
      {
        KeepsCommitDone(OtherServer(w, disk, mem));
      }
    } else {
      var i: nat :| i < |w.cs| && w.cs[i].mb.commitPending && w.verf(w.cs[i].offset) != w.epoch;
      SpoiltCoherent(w, i, None);
      SpoiltCommit(w, i);
      var x := Spoilt(w, w.cs[i].offset, None);
      assert x == OtherServer(w, x.disk, x.mem);
    }
  }

  /** If the server restarts before it is asked to commit, that is safe if and only if nothing was commit pending. */
  ghost predicate RestartSafe(w: World) {
    forall disk, mem :: Coherent(OtherServer(w, disk, mem)) ==>
      Coherent(CommitEffect(Restarted(OtherServer(w, disk, mem))))
  }

  lemma RestartIsSafeIff(w: World)
    requires Coherent(w) && w.committing
    ensures RestartSafe(w) <==> forall i :: 0 <= i < |w.cs| ==> !w.cs[i].mb.commitPending
  {
    hide Coherent;
    if forall i :: 0 <= i < |w.cs| ==> !w.cs[i].mb.commitPending {
      forall disk, mem | Coherent(OtherServer(w, disk, mem))
        ensures Coherent(CommitEffect(Restarted(OtherServer(w, disk, mem))))
      {
        KeepsRestart(OtherServer(w, disk, mem));
        KeepsCommitDone(Restarted(OtherServer(w, disk, mem)));
      }
    } else {
      var i: nat :| i < |w.cs| && w.cs[i].mb.commitPending;
      var o := w.cs[i].offset;
      var x := Spoilt(w, o, Some(w.file(o)));
      SpoiltCoherent(w, i, Some(w.file(o)));
      assert x == OtherServer(w, x.disk, x.mem);
      RestartSpoils(w, i);
    }
  }

  lemma RestartSpoils(w: World, i: nat)
    requires Coherent(w) && w.committing && i < |w.cs| && w.cs[i].mb.commitPending
    ensures !Coherent(CommitEffect(Restarted(Spoilt(w, w.cs[i].offset, Some(w.file(w.cs[i].offset))))))
  {
    var o := w.cs[i].offset;
    var w' := CommitEffect(Restarted(Spoilt(w, o, Some(w.file(o)))));
    assert Good(w, w.cs[i]);
    forall j | 0 <= j < |w'.cs| && w'.cs[j].Holds(o) ensures !Dirtyish(w'.cs[j]) {
      OneHolder(w.cs, i, j, o);
    }
    assert !w'.Unsaved(o) && !OnServer(w', o);
  }

  /** In a run without a restart the verifiers match all the time, so not looking at them does no harm. */
  lemma {:induction false} NoRestartMatches(ws: seq<World>, evs: seq<Event>)
    requires Run(ws, evs) && forall k :: 0 <= k < |evs| ==> !evs[k].Restart?
    ensures ws[|evs|].epoch == 0 && ws[|evs|].VerifiersMatch()
    decreases |evs|
  {
    hide Next, Enabled, Coherent;
    RunCoherent(ws, evs);
    if evs != [] {
      var n := |evs| - 1;
      NoRestartMatches(ws[..n + 1], evs[..n]);
      assert Enabled(ws[n], evs[n]) && ws[n + 1] == Next(ws[n], evs[n]);
      SameEpoch(ws[n], evs[n]);
    }
    VerifierBound(ws[|evs|]);
  }

  lemma SameEpoch(w: World, ev: Event)
    requires Enabled(w, ev) && !ev.Restart?
    ensures Next(w, ev).epoch == w.epoch
  {
  }

  lemma VerifierBound(w: World)
    requires Coherent(w)
    ensures forall k :: w.verf(k) <= w.epoch
  {
  }

  /** The chunk as it would be if its buffer had other contents. */
  function OtherBuffer(c: Chunk, buf: seq<byte>): Chunk {
    c.(mb := c.mb.(buffer := buf))
  }

  /** Zeroing a piece and marking the buffer uptodate is right whatever the allocator or a partial read left in it. */
  ghost predicate ZeroSafe(w: World, i: nat, o: nat, n: nat)
    requires i < |w.cs| && Fits(w.cs[i], o, n) && 0 < w.cs[i].mb.inuse
  {
    forall buf: seq<byte> | |buf| == |w.cs[i].mb.buffer| ::
      Coherent(w.(cs := w.cs[i := Zeroed(OtherBuffer(w.cs[i], buf), o, n)]))
  }

  /** For one content: right if and only if the rest of the buffer happens to show the file already. */
  lemma ZeroIsRightIff(w: World, i: nat, o: nat, n: nat, buf: seq<byte>)
    requires Coherent(w) && Idle(w, i) && !w.cs[i].mb.uptodate && Fits(w.cs[i], o, n) && Hole(w, o, n)
    requires |buf| == |w.cs[i].mb.buffer|
    ensures var c := OtherBuffer(w.cs[i], buf);
            && c.Ok()
            && (Coherent(w.(cs := w.cs[i := Zeroed(c, o, n)])) <==>
                forall p: nat :: c.Holds(p) && !(o <= p < o + n) ==> c.At(p) == w.file(p))
  {
    hide Copy, ReadsOk;
    var c := OtherBuffer(w.cs[i], buf);
    var d := Zeroed(c, o, n);
    var w' := w.(cs := w.cs[i := d]);
    assert Good(w, w.cs[i]);
    forall p: nat | c.Holds(p)
      ensures SameShape(c, d) && OnServer(w, p) && d.At(p) == if o <= p < o + n then w.file(p) else c.At(p)
    {
      CopyAt(c, o, seq(n, _ => 0), p);
      CleanIsSaved(w, i, p);
    }
    CopyAt(c, o, seq(n, _ => 0), c.offset);
    if forall p: nat :: c.Holds(p) && !(o <= p < o + n) ==> c.At(p) == w.file(p) {
      OneChunk(w, w', i, d);
      if w.Owned(i) { OwnerHolds(w, i); }
      ReadsKept(w, w', i, d);
    }
    if Coherent(w') {
      assert Good(w', w'.cs[i]);
      forall p: nat | c.Holds(p) && !(o <= p < o + n) ensures c.At(p) == w.file(p) { assert d.Holds(p); }
    }
  }

  /**
    What the read path does for a hole, zero a piece and mark the buffer uptodate, is safe if and only if
    the piece is the whole chunk, which it does not ask.
   */
  lemma ZeroIsSafeIff(w: World, i: nat, o: nat, n: nat)
    requires Coherent(w) && Idle(w, i) && !w.cs[i].mb.uptodate && Fits(w.cs[i], o, n) && Hole(w, o, n) && 0 < n
    ensures ZeroSafe(w, i, o, n) <==> Whole(w.cs[i], o, n)
  {
    hide Coherent, Zeroed, Hole;
    var c := w.cs[i];
    if Whole(c, o, n) {
      forall buf: seq<byte> | |buf| == |c.mb.buffer|
        ensures Coherent(w.(cs := w.cs[i := Zeroed(OtherBuffer(c, buf), o, n)]))
      {
        ZeroIsRightIff(w, i, o, n, buf);
      }
    } else {
      var p := if c.offset < o then c.offset else o + n;
      var wrong: byte := if w.file(p) == 0 then 1 else 0;
      var buf := seq(|c.mb.buffer|, _ => wrong);
      ZeroIsRightIff(w, i, o, n, buf);
      assert OtherBuffer(c, buf).Holds(p) && OtherBuffer(c, buf).At(p) == wrong;
    }
  }

  lemma Extend(ws: seq<World>, evs: seq<Event>, ev: Event)
    requires Run(ws, evs) && Enabled(ws[|evs|], ev)
    ensures Run(ws + [Next(ws[|evs|], ev)], evs + [ev])
  {
    hide Next, Enabled;
    var ws', evs' := ws + [Next(ws[|evs|], ev)], evs + [ev];
    forall k | 0 <= k < |evs'| ensures Enabled(ws'[k], evs'[k]) && ws'[k + 1] == Next(ws'[k], evs'[k]) {
      if k < |evs| { assert Enabled(ws[k], evs[k]); }
    }
  }

  /** A run that only asks for the first n bytes of an empty file. */
  lemma OneGet(n: nat) returns (ws: seq<World>, evs: seq<Event>)
    requires 0 < n <= MAX_FILE_SIZE
    ensures Run(ws, evs)
    ensures var w := ws[|evs|];
            && w.cs == [Use(NewChunk(0, n, _ => 7))] && w.cs[0].Ok()
            && !w.stable && !w.committing && w.sweep == None && w.disk(0) == 0 && w.mem(0) == None && forall o :: w.file(o) == 0
  {
    var w0 := World([], [], false, false, None, _ => 0, _ => 0, _ => None, 0, _ => 0);
    var ev := Event.Get(0, n, _ => 7);
    ws, evs := [w0, Next(w0, ev)], [ev];
  }

  /** A run after which a reader sees a byte nobody wrote: a hole is read through a part of a fresh chunk. */
  lemma PartialZeroShowsJunk() returns (ws: seq<World>, evs: seq<Event>)
    ensures Run(ws, evs)
    ensures var w := ws[|evs|];
            && Idle(w, 0) && !w.cs[0].mb.uptodate && Fits(w.cs[0], 0, 1) && Hole(w, 0, 1)
            && var d := Zeroed(w.cs[0], 0, 1); d.mb.uptodate && d.Ok() && d.Holds(1) && d.At(1) != w.file(1)
  {
    ws, evs := OneGet(2);
    CopyAt(ws[|evs|].cs[0], 0, seq(1, _ => 0), 1);
  }

  /** A run that writes one byte. */
  lemma OneWrite() returns (ws: seq<World>, evs: seq<Event>)
    ensures Run(ws, evs)
    ensures var w := ws[|evs|];
            && |w.cs| == 1 && w.cs[0].offset == 0 && w.cs[0].length == 1 && Idle(w, 0) && w.cs[0].Ok()
            && w.cs[0].mb.dirty && !w.stable && !w.committing && w.sweep == None && w.disk(0) == 0 && w.file(0) == 1
  {
    hide Copy, Run;
    ws, evs := OneGet(1);
    RunLength(ws, evs);
    CopyAt(ws[|evs|].cs[0], 0, [1], 0);
    Extend(ws, evs, Write(0, 0, [1]));
    ws, evs := ws + [Next(ws[|evs|], Write(0, 0, [1]))], evs + [Write(0, 0, [1])];
  }

  /** A run with one write of one byte after which that byte is commit pending. */
  lemma UnstableWrite() returns (ws: seq<World>, evs: seq<Event>)
    ensures Run(ws, evs)
    ensures var w := ws[|evs|];
            && |w.cs| == 1 && w.cs[0].offset == 0 && w.cs[0].length == 1 && w.cs[0].mb.commitPending
            && !w.cs[0].mb.dirty && !w.cs[0].mb.locked && !w.cs[0].mb.flushing
            && !w.stable && !w.committing && w.sweep == None && w.disk(0) == 0 && w.file(0) == 1
  {
    hide Run;
    ws, evs := OneWrite();
    RunLength(ws, evs);
    Extend(ws, evs, FlushStart(0));
    ws, evs := ws + [Next(ws[|evs|], FlushStart(0))], evs + [FlushStart(0)];
    Extend(ws, evs, FlushDone(0));
    ws, evs := ws + [Next(ws[|evs|], FlushDone(0))], evs + [FlushDone(0)];
  }

  lemma RunLength(ws: seq<World>, evs: seq<Event>)
    requires Run(ws, evs)
    ensures |ws| == |evs| + 1
  {
  }

  /**
    A run with a restart before the commit.  The callback, which does not compare verifiers, takes the
    COMMIT for good: nothing is left to write and the server lacks the write.
   */
  lemma RestartLosesWrite() returns (ws: seq<World>, evs: seq<Event>)
    ensures Run(ws, evs)
    ensures var w := ws[|evs|];
            && w.committing
            && var w' := CommitEffect(w);
            (forall i :: 0 <= i < |w'.cs| ==> !Dirtyish(w'.cs[i])) && w'.disk(0) != w'.file(0)
  {
    hide Run;
    ws, evs := UnstableWrite();
    RunLength(ws, evs);
    Extend(ws, evs, Restart);
    ws, evs := ws + [Next(ws[|evs|], Restart)], evs + [Restart];
    Extend(ws, evs, CommitStart);
    ws, evs := ws + [Next(ws[|evs|], CommitStart)], evs + [CommitStart];
  }
}
