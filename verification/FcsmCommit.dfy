/**
  What a commit promises while writes are unstable.

  Such writes only append: a flush takes the run of dirty items that starts at the append position, so
  sequence numbers and file offsets go in step.  A full commit waits for a sequence number.  Whether
  that means that everything it was asked for is on the server depends on the holes between the dirty
  items, which other writers may fill in the meantime.
 */
module FcsmCommit {
  import opened Chunks
  import opened Fcsm
  import opened FcsmRun

  function End(x: Item): nat {
    x.offset + x.length
  }

  /** Dirty items are chunks of the map: sorted, and none overlaps another. */
  ghost predicate InOrder(d: seq<Item>) {
    forall i, j :: 0 <= i < j < |d| ==> End(d[i]) <= d[j].offset
  }

  ghost predicate Inside(xs: set<Item>, p: nat) {
    exists x :: x in xs && x.offset <= p < End(x)
  }

  /** From the given offset on there is no hole before the end of the last item. */
  ghost predicate NoHole(xs: set<Item>, from: int) {
    forall x, p: nat :: x in xs && from <= p < End(x) ==> Inside(xs, p)
  }

  /**
    What a commit waits for: a sequence number, the items that were dirty and those that were commit
    pending at the call; base is the file offset that sequence number 0 stands for.
   */
  datatype Claim = Claim(goal: nat, base: int, dirty: set<Item>, pending: set<Item>)

  ghost predicate Covered(a: Claim) {
    NoHole(a.dirty, a.base + a.goal)
  }

  ghost predicate ItemsOk(f: Fc, written: set<Item>, a: Claim) {
    && f.appendAt == a.base + f.flushing
    && a.dirty <= written + Set(f.dirty) + Set(f.inflight) + Set(f.pending)
    && (forall x :: x in a.dirty ==> x in f.dirty || End(x) <= f.appendAt)
    && (a.goal <= f.flushing ==> a.dirty <= written + Set(f.inflight) + Set(f.pending))
    && a.pending <= written + Set(f.pending)
    && (a.goal <= f.committed ==> a.dirty + a.pending <= written)
  }

  /** Its target is in the commit queue till that sequence number is committed. */
  ghost predicate WaiterOk(f: Fc, w: Waiter, a: Claim) {
    w != Nobody ==>
    && (forall k :: 0 <= k < |f.ctgtq| && f.ctgtq[k].waiter == w ==> a.goal <= f.ctgtq[k].goal)
    && (forall k :: 0 <= k < |f.ftgtq| ==> f.ftgtq[k].waiter != w)
    && (w in f.answered ==> a.goal <= f.committed)
  }

  // ---------------------------------------------------------------- one flush

  /** A flush takes items up to a hole: the others start beyond the end of what it takes. */
  lemma {:induction false} RunEnds(d: seq<Item>)
    requires InOrder(d) && d != []
    ensures var n, e := Contiguous(d), d[0].offset + Bytes(d[..Contiguous(d)]);
            (forall i :: 0 <= i < n ==> End(d[i]) <= e) && (forall i :: n <= i < |d| ==> e < d[i].offset)
  {
    var n := Contiguous(d);
    assert d[..n] == [d[0]] + d[..n][1..] && d[..n][1..] == d[1..n];
    if |d| < 2 || End(d[0]) != d[1].offset {
      assert d[1..n] == [];
    } else {
      RunEnds(d[1..]);
      assert d[1..][..n - 1] == d[1..n];
      forall i | 1 <= i < |d| ensures d[i] == d[1..][i - 1] {}
    }
  }

  /** Items to be flushed are where they were, or sent. */
  lemma SyncItems(f: Fc, written: set<Item>, a: Claim)
    requires Positive(f.dirty) && !f.stable && f.dirty != [] && f.appendAt == f.dirty[0].offset
    requires InOrder(f.dirty) && ItemsOk(f, written, a) && Covered(a)
    ensures ItemsOk(Sync(f, Contiguous(f.dirty)), written, a)
  {
    hide Bytes, Contiguous, NoHole;
    var n, d := Contiguous(f.dirty), f.dirty;
    var g := Sync(f, n);
    var e := f.appendAt + Bytes(d[..n]);
    RunEnds(d);
    SyncSets(f, n);
    forall x | x in a.dirty ensures x in g.dirty || End(x) <= g.appendAt {
      if x in d && x !in d[n..] { assert x in d[..n]; }
    }
    if a.goal <= g.flushing {
      forall x | x in a.dirty ensures x !in d[n..] {
        if x in d[n..] { NotLeft(f, written, a, x); }
      }
    }
  }

  lemma SyncSets(f: Fc, n: nat)
    requires n <= |f.dirty| && !f.stable && 0 < n && f.appendAt == f.dirty[0].offset
    ensures var g := Sync(f, n);
            && g.dirty == f.dirty[n..] && g.inflight == f.inflight + f.dirty[..n] && g.pending == f.pending
            && g.appendAt == f.appendAt + Bytes(f.dirty[..n]) && g.flushing == f.flushing + Bytes(f.dirty[..n])
            && g.committed == f.committed && !g.stable && g.ctgtq == f.ctgtq && g.ftgtq == f.ftgtq && g.answered == f.answered
    ensures Set(f.dirty) == Set(f.dirty[..n]) + Set(f.dirty[n..])
    ensures Set(f.inflight + f.dirty[..n]) == Set(f.inflight) + Set(f.dirty[..n])
  {
    assert f.dirty == f.dirty[..n] + f.dirty[n..];
  }

  /** An item left behind beyond the goal would have a hole before it. */
  lemma NotLeft(f: Fc, written: set<Item>, a: Claim, x: Item)
    requires !f.stable && f.dirty != [] && f.appendAt == f.dirty[0].offset && InOrder(f.dirty)
    requires ItemsOk(f, written, a) && Covered(a) && x in a.dirty
    requires a.goal <= f.flushing + Bytes(f.dirty[..Contiguous(f.dirty)])
    ensures x !in f.dirty[Contiguous(f.dirty)..]
  {
    var n, d := Contiguous(f.dirty), f.dirty;
    RunEnds(d);
    hide Bytes, Contiguous;
    var e := f.appendAt + Bytes(d[..n]);
    forall y | y in a.dirty ensures !(y.offset <= e < End(y)) {
      if y in d && y !in d[n..] { assert y in d[..n]; }
    }
    assert !Inside(a.dirty, e);
  }

  // ---------------------------------------------------------------- every step keeps a claim

  lemma SameItems(f: Fc, g: Fc, written: set<Item>, a: Claim)
    requires ItemsOk(f, written, a)
    requires && g.appendAt == f.appendAt && g.flushing == f.flushing && g.committed == f.committed
             && g.dirty == f.dirty && g.inflight == f.inflight && g.pending == f.pending
    ensures ItemsOk(g, written, a)
  {
  }

  lemma LateItems(f: Fc, late: seq<Item>, written: set<Item>, a: Claim)
    requires ItemsOk(f, written, a)
    ensures ItemsOk(f.(dirty := InsertAll(f.dirty, late)), written, a)
  {
    hide InsertAll;
    InsertAllSet(f.dirty, late);
    assert forall x :: x in f.dirty ==> x in Set(f.dirty);
  }

  /** A flush that leaves writes unstable has appended. */
  lemma UnstableSync(f: Fc)
    requires Kept(f) && !f.stable && !Sync(f, Picked(f)).stable
    ensures f.dirty != [] ==> f.appendAt == f.dirty[0].offset
    ensures Picked(f) == Contiguous(f.dirty)
  {
    hide Contiguous;
  }

  lemma MaybeSync(f: Fc, written: set<Item>, a: Claim, w: Waiter)
    requires Kept(f) && !f.stable && InOrder(f.dirty) && ItemsOk(f, written, a) && Covered(a) && WaiterOk(f, w, a)
    ensures var g := Sync(f, Picked(f)); !g.stable ==> ItemsOk(g, written, a) && WaiterOk(g, w, a)
  {
    hide Kept, Contiguous, ItemsOk, Covered;
    var g := Sync(f, Picked(f));
    if !g.stable {
      UnstableSync(f);
      KeptFacts(f);
      if f.dirty == [] {
        SyncNothing(f);
      } else {
        SyncItems(f, written, a);
        SyncSets(f, Contiguous(f.dirty));
      }
    }
  }

  ghost predicate ClaimOk(f: Fc, written: set<Item>, w: Waiter, a: Claim) {
    !f.stable ==> ItemsOk(f, written, a) && WaiterOk(f, w, a)
  }

  /** A target of somebody else in either queue, or telling somebody else, changes nothing. */
  lemma ClaimStays(f: Fc, g: Fc, t: Tgt, written: set<Item>, w: Waiter, a: Claim)
    requires ClaimOk(f, written, w, a) && (w == Nobody || t.waiter != w) && (g.stable <==> f.stable)
    requires && g.appendAt == f.appendAt && g.flushing == f.flushing && g.committed == f.committed
             && g.dirty == f.dirty && g.inflight == f.inflight && g.pending == f.pending
    requires (g.ftgtq == f.ftgtq || g.ftgtq == f.ftgtq + [t]) && (g.ctgtq == f.ctgtq || g.ctgtq == f.ctgtq + [t])
    requires g.answered == f.answered || g.answered == f.answered + Told(t.waiter)
    ensures ClaimOk(g, written, w, a)
  {
    hide ItemsOk;
    if !f.stable { SameItems(f, g, written, a); }
  }

  /** ensure_flush() for somebody else. */
  lemma FlushClaim(f: Fc, v: Waiter, full: bool, late: seq<Item>, written: set<Item>, w: Waiter, a: Claim)
    requires Kept(f) && !f.stable && Positive(late) && (full ==> f.pending == []) && InOrder(InsertAll(f.dirty, late))
    requires Covered(a) && ItemsOk(f, written, a) && WaiterOk(f, w, a) && (w == Nobody || v != w)
    ensures ClaimOk(EnsureFlush(f, v, full, late), written, w, a)
  {
    hide Kept, InsertAll, Sync, ItemsOk, Covered, Contiguous, InOrder, WaiterOk, FlushGoal;
    var g, t := EnsureFlush(f, v, full, late), Tgt(FlushGoal(f), v, full);
    if f.running || FlushGoal(f) == f.flushed {
      ClaimStays(f, g, t, written, w, a);
    } else {
      var h := f.(dirty := InsertAll(f.dirty, late));
      LateItems(f, late, written, a);
      LateKeeps(f, late);
      if MustFlushAll(f, h, full) {
        StableSync(h.(stable := true));
      } else {
        SameWaiters(f, h, w, a);
        MaybeSync(h, written, a, w);
        ClaimStays(Sync(h, Picked(h)), g, Tgt(FlushGoal(f), v, false), written, w, a);
      }
    }
  }

  lemma SameWaiters(f: Fc, g: Fc, w: Waiter, a: Claim)
    requires WaiterOk(f, w, a) && g.ftgtq == f.ftgtq && g.ctgtq == f.ctgtq && g.answered == f.answered && g.committed == f.committed
    ensures WaiterOk(g, w, a)
  {
  }

  lemma StableSync(f: Fc)
    requires f.stable
    ensures Sync(f, Picked(f)).stable
  {
  }

  /** ensure_commit() for somebody else. */
  lemma CommitClaim(f: Fc, v: Waiter, full: bool, mdeb: nat, late: seq<Item>, written: set<Item>, w: Waiter, a: Claim)
    requires Kept(f) && !f.stable && Positive(late) && (full ==> f.pending == []) && InOrder(InsertAll(f.dirty, late))
    requires Covered(a) && ItemsOk(f, written, a) && WaiterOk(f, w, a) && (w == Nobody || v != w)
    ensures ClaimOk(EnsureCommit(f, v, full, mdeb, late), written, w, a)
  {
    hide Kept, InsertAll, EnsureFlush, ItemsOk, Covered, InOrder, WaiterOk, CommitGoal, CommitBytes, ClaimOk;
    assert ClaimOk(f, written, w, a) by { IsClaim(f, written, w, a); }
    var g, goal := EnsureCommit(f, v, full, mdeb, late), CommitGoal(f, full, mdeb);
    if CommitBytes(f, full, mdeb) == 0 || f.running {
      ClaimStays(f, g, Tgt(goal, v, full), written, w, a);
    } else if f.flushed < goal {
      var h := EnsureFlush(f, Nobody, full, late);
      FlushClaim(f, Nobody, full, late, written, w, a);
      if h.stable {
        StaysStable(h, v, []);
        StableClaim(g, written, w, a);
      } else {
        ClaimStays(h, g, Tgt(goal, v, false), written, w, a);
      }
    } else {
      ClaimStays(f, g, Tgt(goal, v, false), written, w, a);
    }
  }

  lemma IsClaim(f: Fc, written: set<Item>, w: Waiter, a: Claim)
    ensures ClaimOk(f, written, w, a) <==> (f.stable || (ItemsOk(f, written, a) && WaiterOk(f, w, a)))
  {
  }

  lemma StableClaim(f: Fc, written: set<Item>, w: Waiter, a: Claim)
    requires f.stable
    ensures ClaimOk(f, written, w, a)
  {
  }

  lemma StaysStable(f: Fc, v: Waiter, late: seq<Item>)
    requires f.stable
    ensures EnsureFlush(f, v, false, late).stable
  {
    hide InsertAll, Bytes;
  }

  /** The targets that are told are not its own, or its own is reached. */
  lemma PopClaim(f: Fc, written: set<Item>, w: Waiter, a: Claim)
    requires !f.stable && ItemsOk(f, written, a) && WaiterOk(f, w, a)
    ensures var g, h := PopFlush(f), PopCommit(f);
            ItemsOk(g, written, a) && WaiterOk(g, w, a) && ItemsOk(h, written, a) && WaiterOk(h, w, a)
  {
    hide ItemsOk, Met;
    SameItems(f, PopFlush(f), written, a);
    SameItems(f, PopCommit(f), written, a);
    var k, c := Met(f.ftgtq, f.flushed), Met(f.ctgtq, f.committed);
    if w in Waiters(f.ftgtq[..k]) { ListedWaiter(f.ftgtq[..k], w); }
    if w in Waiters(f.ctgtq[..c]) {
      ListedWaiter(f.ctgtq[..c], w);
      var i :| 0 <= i < c && f.ctgtq[..c][i].waiter == w;
      MetAll(f.ctgtq, f.committed, i);
    }
  }

  lemma CleanUpClaim(f: Fc, written: set<Item>, w: Waiter, a: Claim)
    requires ItemsOk(f, written, a) && WaiterOk(f, w, a)
    ensures ItemsOk(CleanUp(f), written, a) && WaiterOk(CleanUp(f), w, a)
  {
    hide ItemsOk;
    SameItems(f, CleanUp(f), written, a);
    if w in Waiters(f.ftgtq) { ListedWaiter(f.ftgtq, w); }
  }

  lemma HandlersClaim(f: Fc, written: set<Item>, w: Waiter, a: Claim)
    requires Kept(f) && !f.stable && Handles(f) && InOrder(f.dirty) && Covered(a) && ItemsOk(f, written, a) && WaiterOk(f, w, a)
    ensures ClaimOk(HandleFlush(f), written, w, a) && ClaimOk(HandleCommit(f), written, w, a)
  {
    hide Kept, PopFlush, PopCommit, Sync, Contiguous, ItemsOk, WaiterOk, Covered, InOrder;
    PopClaim(f, written, w, a);
    PopFlushKeeps(f);
    PopCommitKeeps(f);
    var g, h := PopFlush(f), PopCommit(f);
    MaybeSync(g, written, a, w);
    MaybeSync(h, written, a, w);
    SameItems(g, StartCommit(g), written, a);
    SameWaiters(g, StartCommit(g), w, a);
    SameItems(g, g.(running := false), written, a);
    SameWaiters(g, g.(running := false), w, a);
    SameItems(h, h.(running := false), written, a);
    SameWaiters(h, h.(running := false), w, a);
  }

  lemma CompleteClaim(f: Fc, i: nat, j: nat, written: set<Item>, w: Waiter, a: Claim)
    requires !f.stable && ItemsOk(f, written, a) && WaiterOk(f, w, a) && i <= j <= |f.inflight|
    ensures ItemsOk(Complete(f, i, j), written, a) && WaiterOk(Complete(f, i, j), w, a)
  {
    hide InsertAll, Bytes;
    var out := f.inflight[i..j];
    CompleteSet(f, i, j);
    InsertAllBytes(f.pending, out);
    forall x | x in f.pending || x in out ensures x in InsertAll(f.pending, out) {
      assert x in multiset(f.pending) || x in multiset(out);
      assert x in multiset(InsertAll(f.pending, out));
    }
  }

  /** The end of a commit: all that was flushed is written. */
  lemma CommittedClaim(f: Fc, written: set<Item>, w: Waiter, a: Claim)
    requires Kept(f) && f.commitInProgress && ItemsOk(f, written, a) && WaiterOk(f, w, a)
    ensures var g := CommitReply(f); ItemsOk(g, written + Set(f.pending), a) && WaiterOk(g, w, a)
  {
    hide Kept;
    CommitReplyKeeps(f);
    BusyIdle(f);
    assert Set([]) == {};
  }

  lemma DirtiedClaim(f: Fc, it: Item, written: set<Item>, w: Waiter, a: Claim)
    requires ItemsOk(f, written, a) && WaiterOk(f, w, a)
    ensures ItemsOk(Dirtied(f, it), written, a) && WaiterOk(Dirtied(f, it), w, a)
  {
    hide Insert;
    InsertSet(f.dirty, it);
    assert forall x :: x in f.dirty ==> x in Set(f.dirty);
  }

  /** The dirty items are chunks of a map before the step, and where it collects them. */
  ghost predicate Apart(s: Sys, ev: Event) {
    && InOrder(s.f.dirty)
    && (ev.Flush? || ev.Commit? ==> InOrder(InsertAll(s.f.dirty, ev.late)))
  }

  lemma StepClaim(s: Sys, ev: Event, w: Waiter, a: Claim)
    requires Control(s) && Enabled(s, ev) && Apart(s, ev) && !s.f.stable && w in s.asked && w != Nobody
    requires Covered(a) && ItemsOk(s.f, s.written, a) && WaiterOk(s.f, w, a)
    ensures var s' := Next(s, ev); ClaimOk(s'.f, s'.written, w, a)
  {
    hide Kept, EnsureFlush, EnsureCommit, HandleFlush, HandleCommit, InsertAll, Insert, InOrder, Covered, ItemsOk, WaiterOk,
         Complete, CommitReply, Dirtied, Told;
    match ev
    case Write(it) => DirtiedClaim(s.f, it, s.written, w, a);
    case Flush(v, late) =>
      FreshPositive(late, s.nextId);
      FlushClaim(s.f, v, false, late, s.written, w, a);
    case Commit(v, full, mdeb, late) =>
      FreshPositive(late, s.nextId);
      CommitClaim(s.f, v, full, mdeb, late, s.written, w, a);
    case Reply(v) => ClaimStays(s.f, Next(s, ev).f, Tgt(0, v, false), s.written, w, a);
    case FlushEnds(i, j) => CompleteClaim(s.f, i, j, s.written, w, a);
    case CallbackReturns =>
    case FlushCallback =>
      if Handles(s.f) {
        HandlersClaim(s.f, s.written, w, a);
      } else {
        NotHandled(s.f);
      }
    case CommitEnds => CommittedClaim(s.f, s.written, w, a);
    case CommitCallback => HandlersClaim(s.f, s.written, w, a);
    case Cleanup => CleanUpClaim(s.f, s.written, w, a);
  }

  // ---------------------------------------------------------------- what a commit promises

  /** What the waiter of a commit may claim. */
  ghost function ClaimOf(f: Fc, full: bool, mdeb: nat): Claim {
    var d := Bytes(f.dirty);
    Claim(if full then f.committed + d
          else if f.pending != [] then f.flushed
          else f.committed + (if mdeb < d then d - mdeb else 0),
          f.appendAt - f.flushing,
          if full && f.committed == f.flushing && NoHole(Set(f.dirty), f.appendAt + d) then Set(f.dirty) else {},
          Set(f.pending))
  }

  lemma ClaimHolds(f: Fc, full: bool, mdeb: nat, written: set<Item>)
    requires Kept(f) && !f.stable && (full ==> f.pending == [])
    ensures Covered(ClaimOf(f, full, mdeb)) && ItemsOk(f, written, ClaimOf(f, full, mdeb))
  {
    hide Kept, NoHole;
    KeptFacts(f);
    BytesPositive(f.dirty);
    BytesPositive(f.pending);
    NoHoleInNothing(f.appendAt - f.flushing + ClaimOf(f, full, mdeb).goal);
  }

  lemma NoHoleInNothing(from: int)
    ensures NoHole({}, from)
  {
  }

  lemma FlushQueue(f: Fc, v: Waiter, full: bool, late: seq<Item>)
    ensures var q := EnsureFlush(f, v, full, late).ftgtq;
            q == f.ftgtq || (|q| == |f.ftgtq| + 1 && q[..|f.ftgtq|] == f.ftgtq && q[|f.ftgtq|].waiter == v)
  {
    hide InsertAll, Bytes, Contiguous;
  }

  /** A commit that leaves writes unstable queues no flush target for its waiter. */
  lemma CommitQueue(f: Fc, w: Waiter, full: bool, mdeb: nat, late: seq<Item>)
    requires !EnsureCommit(f, w, full, mdeb, late).stable
    ensures var q := EnsureCommit(f, w, full, mdeb, late).ftgtq;
            forall k :: 0 <= k < |q| ==> q[k].waiter == Nobody || (k < |f.ftgtq| && q[k] == f.ftgtq[k])
  {
    hide EnsureFlush;
    FlushQueue(f, Nobody, full, late);
    var h := EnsureFlush(f, Nobody, full, late);
    if h.stable { StaysStable(h, w, []); }
    var q := h.ftgtq;
    forall k | 0 <= k < |q| ensures q[k].waiter == Nobody || (k < |f.ftgtq| && q[k] == f.ftgtq[k]) {
      if k < |f.ftgtq| && q != f.ftgtq { assert q[k] == q[..|f.ftgtq|][k]; }
    }
  }

  lemma NotInCommitQueue(f: Fc, asked: multiset<Waiter>, w: Waiter)
    requires Accounted(f, asked) && w !in asked && w != Nobody
    ensures forall k :: 0 <= k < |f.ctgtq| ==> f.ctgtq[k].waiter != w
  {
    assert w !in multiset(Waiters(f.ctgtq));
    forall k | 0 <= k < |f.ctgtq| ensures f.ctgtq[k].waiter != w {
      WaiterListed(f.ctgtq, k);
    }
  }

  lemma NewClaim(s: Sys, w: Waiter, full: bool, mdeb: nat, late: seq<Item>)
    requires Control(s) && Waiting(s) && Enabled(s, Commit(w, full, mdeb, late)) && Apart(s, Commit(w, full, mdeb, late))
    requires w != Nobody
    ensures ClaimOk(EnsureCommit(s.f, w, full, mdeb, late), s.written, w, ClaimOf(s.f, full, mdeb))
  {
    hide Kept, EnsureCommit, Covered, ItemsOk, InOrder, InsertAll, Accounted;
    var a, f, g := ClaimOf(s.f, full, mdeb), s.f, EnsureCommit(s.f, w, full, mdeb, late);
    FreshPositive(late, s.nextId);
    ClaimHolds(f, full, mdeb, s.written);
    CommitClaim(f, w, full, mdeb, late, s.written, Nobody, a);
    CommitAsked(f, w, full, mdeb, late);
    NotWaiting(f, s.asked, w);
    NotInCommitQueue(f, s.asked, w);
    if !g.stable {
      CommitQueue(f, w, full, mdeb, late);
      EnsureCommitShape(f, w, full, mdeb, late);
      NewWaiter(f, g, w, full, mdeb);
    }
  }

  lemma NewWaiter(f: Fc, g: Fc, w: Waiter, full: bool, mdeb: nat)
    requires Kept(f) && CommitAsks(f, g, w, full, mdeb) && !g.stable && (full ==> f.pending == [])
    requires forall k :: 0 <= k < |f.ctgtq| ==> f.ctgtq[k].waiter != w
    requires forall k :: 0 <= k < |g.ftgtq| ==> g.ftgtq[k].waiter != w
    requires w !in f.answered && g.committed == f.committed
    ensures WaiterOk(g, w, ClaimOf(f, full, mdeb))
  {
    hide Kept, NoHole;
    KeptFacts(f);
    BytesPositive(f.dirty);
    assert forall k :: 0 <= k < |f.ctgtq| && |f.ctgtq| < |g.ctgtq| ==> g.ctgtq[k] == g.ctgtq[..|f.ctgtq|][k];
  }

  lemma StableForever(s: Sys, ev: Event)
    requires Enabled(s, ev) && s.f.stable
    ensures Next(s, ev).f.stable
  {
    hide EnsureFlush, InsertAll, Insert, Bytes, Met, Contiguous;
    if ev.Flush? { StaysStable(s.f, ev.w, ev.late); }
  }

  lemma {:induction false} ClaimStands(ss: seq<Sys>, evs: seq<Event>, n: nat, m: nat)
    requires Run(ss, evs) && n < m <= |evs| && evs[n].Commit? && evs[n].w != Nobody && !ss[m].f.stable
    requires forall k :: n <= k < m ==> Apart(ss[k], evs[k])
    ensures var a := ClaimOf(ss[n].f, evs[n].full, evs[n].mdeb);
            !ss[n].f.stable && ItemsOk(ss[m].f, ss[m].written, a) && WaiterOk(ss[m].f, evs[n].w, a) && evs[n].w in ss[m].asked
    decreases m
  {
    hide Next, Enabled, Apart, Control, ItemsOk, WaiterOk, EnsureCommit, ClaimOf, Waiting;
    var s, ev, w := ss[m - 1], evs[m - 1], evs[n].w;
    RunInv(ss, evs, m - 1);
    RunInv(ss, evs, n);
    assert Enabled(s, ev) && ss[m - 1 + 1] == Next(s, ev) && Apart(s, ev);
    assert Enabled(ss[n], evs[n]);
    if s.f.stable { StableForever(s, ev); }
    UnstableCall(ss[n], evs[n]);
    if n == m - 1 {
      CommitStep(s, ev);
      NewClaim(s, w, ev.full, ev.mdeb, ev.late);
    } else {
      ClaimStands(ss, evs, n, m - 1);
      ClaimHolds(ss[n].f, evs[n].full, evs[n].mdeb, ss[n].written) by { ControlKept(ss[n]); }
      StepClaim(s, ev, w, ClaimOf(ss[n].f, evs[n].full, evs[n].mdeb));
      StillAsked(s, ev, w);
    }
  }

  lemma UnstableCall(s: Sys, ev: Event)
    requires Enabled(s, ev) && ev.Commit?
    ensures !s.f.stable && (ev.full ==> s.f.pending == [])
  {
  }

  lemma CommitStep(s: Sys, ev: Event)
    requires Enabled(s, ev) && ev.Commit?
    ensures var s' := Next(s, ev);
            s'.f == EnsureCommit(s.f, ev.w, ev.full, ev.mdeb, ev.late) && s'.written == s.written
            && (ev.w != Nobody ==> ev.w in s'.asked)
  {
    hide EnsureCommit;
    assert ev.w != Nobody ==> ev.w in multiset(Told(ev.w));
  }

  lemma StillAsked(s: Sys, ev: Event, w: Waiter)
    requires Enabled(s, ev) && w in s.asked
    ensures w in Next(s, ev).asked
  {
    hide EnsureFlush, EnsureCommit, HandleFlush, HandleCommit, Dirtied, Complete, CommitReply;
  }

  /**
    Told while writes are unstable: as many bytes are committed as the call asked for.  A commit of what
    was pending has all of that written.  A full commit has all of what was dirty written, if nothing was
    in flight or pending at the call and there was no hole at or beyond the offset that its goal stands for.
   */
  lemma CommitPromise(ss: seq<Sys>, evs: seq<Event>, n: nat, m: nat)
    requires Run(ss, evs) && n < m <= |evs| && evs[n].Commit? && evs[n].w != Nobody
    requires forall k :: n <= k < m ==> Apart(ss[k], evs[k])
    requires !ss[m].f.stable && evs[n].w in ss[m].f.answered
    ensures var f, ev, committed := ss[n].f, evs[n], ss[m].f.committed;
            && Set(f.pending) <= ss[m].written
            && (ev.full ==> f.committed + Bytes(f.dirty) <= committed)
            && (!ev.full ==> f.flushed <= committed)
            && (!ev.full && f.pending == [] ==> f.committed + Bytes(f.dirty) <= committed + ev.mdeb)
            && (ev.full && f.committed == f.flushing && NoHole(Set(f.dirty), f.appendAt + Bytes(f.dirty)) ==>
                  Set(f.dirty) <= ss[m].written)
  {
    hide Run, Apart, NoHole;
    RunLength(ss, evs);
    ClaimStands(ss, evs, n, m);
    RunInv(ss, evs, n);
    UnstableCall(ss[n], evs[n]) by { RunEnabled(ss, evs, n); }
    KeptFacts(ss[n].f);
    BytesPositive(ss[n].f.pending);
  }

  lemma RunEnabled(ss: seq<Sys>, evs: seq<Event>, n: nat)
    requires Run(ss, evs) && n < |evs|
    ensures Enabled(ss[n], evs[n])
  {
  }

  // ---------------------------------------------------------------- holes

  /** Whatever other writers make dirty meanwhile, a full commit sends out all that was dirty or makes writes stable. */
  ghost predicate FullSafe(f: Fc, w: Waiter, mdeb: nat, id: nat) {
    forall late :: FreshItems(late, id) && InOrder(InsertAll(f.dirty, late)) ==>
      var g := EnsureCommit(f, w, true, mdeb, late);
      g.stable || Set(f.dirty) <= Set(g.inflight)
  }

  /** A full commit on a stopped machine that leaves writes unstable: what it has sent out, from the append position on. */
  lemma UnstableFull(f: Fc, w: Waiter, mdeb: nat, late: seq<Item>)
    requires Kept(f) && !f.stable && !f.running && f.pending == [] && f.dirty != [] && Positive(late)
    ensures var g, d := EnsureCommit(f, w, true, mdeb, late), InsertAll(f.dirty, late);
            && d != [] && f.committed == f.flushing
            && (g.stable <==> d[0].offset != f.appendAt || Bytes(d[..Contiguous(d)]) < Bytes(f.dirty))
            && (!g.stable ==> && g.inflight == d[..Contiguous(d)] && g.pending == []
                              && g.flushing == f.flushing + Bytes(d[..Contiguous(d)]))
  {
    hide Kept, Contiguous, InsertAll;
    KeptFacts(f);
    BytesPositive(f.dirty);
    BytesPositive(f.pending);
    LateKeeps(f, late);
    var d := InsertAll(f.dirty, late);
    assert d != [];
    var h := f.(dirty := d);
    if MustFlushAll(f, h, true) {
      StableSync(h.(stable := true));
    }
    var k := EnsureFlush(f, Nobody, true, late);
    if k.stable { StaysStable(k, w, []); }
    assert [] + d[..Contiguous(d)] == d[..Contiguous(d)];
  }

  /** What is sent out at once fills the file from the append position on. */
  lemma {:induction false} RunCovers(d: seq<Item>, p: nat)
    requires d != [] && d[0].offset <= p < d[0].offset + Bytes(d[..Contiguous(d)])
    ensures Inside(Set(d), p)
  {
    var n := Contiguous(d);
    assert d[..n] == [d[0]] + d[..n][1..] && d[..n][1..] == d[1..n];
    assert d[0] in Set(d);
    if |d| < 2 || End(d[0]) != d[1].offset {
      assert d[1..n] == [];
    } else if End(d[0]) <= p {
      assert d[1..][..n - 1] == d[1..n];
      RunCovers(d[1..], p);
      var x :| x in Set(d[1..]) && x.offset <= p < End(x);
      assert x in Set(d);
    }
  }

  predicate Disjoint(x: Item, y: Item) {
    End(x) <= y.offset || End(y) <= x.offset
  }

  lemma {:induction false} InsertInOrder(d: seq<Item>, it: Item)
    requires InOrder(d) && Positive(d) && 0 < it.length && forall x :: x in d ==> Disjoint(x, it)
    ensures InOrder(Insert(d, it))
  {
    if d != [] && d[0].offset < it.offset {
      assert forall x :: x in d[1..] ==> x in d;
      InsertInOrder(d[1..], it);
      var r := Insert(d[1..], it);
      assert Insert(d, it) == [d[0]] + r;
      assert Disjoint(d[0], it);
      InsertSet(d[1..], it);
      hide Insert, InOrder;
      forall k | 0 <= k < |r| ensures End(d[0]) <= r[k].offset {
        assert r[k] in Set(r);
        if r[k] != it { LaterInOrder(d, r[k]); }
      }
      ConsInOrder(d[0], r);
    } else {
      forall k | 0 <= k < |d| ensures End(it) <= d[k].offset { assert Disjoint(d[k], it); }
      ConsInOrder(it, d);
    }
  }

  lemma InsertPositive(d: seq<Item>, it: Item)
    requires Positive(d) && 0 < it.length
    ensures Positive(Insert(d, it))
  {
    hide Insert;
    InsertSet(d, it);
    var r := Insert(d, it);
    forall k | 0 <= k < |r| ensures 0 < r[k].length {
      assert r[k] in Set(r);
    }
  }

  lemma LaterInOrder(d: seq<Item>, x: Item)
    requires InOrder(d) && d != [] && x in d[1..]
    ensures End(d[0]) <= x.offset
  {
  }

  lemma ConsInOrder(x: Item, d: seq<Item>)
    requires InOrder(d) && forall k :: 0 <= k < |d| ==> End(x) <= d[k].offset
    ensures InOrder([x] + d)
  {
  }

  lemma {:induction false} InsertAllInOrder(d: seq<Item>, late: seq<Item>)
    requires InOrder(d) && Positive(d) && InOrder(late) && Positive(late)
    requires forall x, y :: x in d && y in late ==> Disjoint(x, y)
    ensures InOrder(InsertAll(d, late)) && Set(InsertAll(d, late)) == Set(d) + Set(late)
    decreases |late|
  {
    if late != [] {
      InsertInOrder(d, late[0]);
      InsertPositive(d, late[0]);
      InsertSet(d, late[0]);
      forall x, y | x in Insert(d, late[0]) && y in late[1..] ensures Disjoint(x, y) {
        assert x in Set(Insert(d, late[0]));
      }
      InsertAllInOrder(Insert(d, late[0]), late[1..]);
      assert Set(late) == {late[0]} + Set(late[1..]);
    }
  }

  /** Items that fill the holes between the dirty ones from one offset up to another. */
  function Fillers(d: seq<Item>, from: nat, p: nat, id: nat): seq<Item> {
    if d == [] || p <= d[0].offset then
      if from < p then [Item(id, from, p - from)] else []
    else if from < d[0].offset then
      [Item(id, from, d[0].offset - from)] + Fillers(d[1..], End(d[0]), p, id + 1)
    else
      Fillers(d[1..], End(d[0]), p, id)
  }

  lemma HoleInRest(d: seq<Item>, p: nat)
    requires d != [] && !Inside(Set(d), p)
    ensures !Inside(Set(d[1..]), p) && (d[0].offset < p ==> End(d[0]) <= p)
  {
    assert d[0] in Set(d) && Set(d[1..]) <= Set(d);
  }

  lemma {:induction false} FillersBounds(d: seq<Item>, from: nat, p: nat, id: nat)
    requires Positive(d) && !Inside(Set(d), p) && InOrder(d) && (d != [] ==> from <= d[0].offset)
    ensures var late := Fillers(d, from, p, id);
            FreshItems(late, id) && InOrder(late) && forall k :: 0 <= k < |late| ==> from <= late[k].offset && End(late[k]) <= p
    decreases |d|
  {
    if d != [] && d[0].offset < p {
      HoleInRest(d, p);
      hide Inside;
      FillersBounds(d[1..], End(d[0]), p, if from < d[0].offset then id + 1 else id);
      if from < d[0].offset {
        ConsInOrder(Item(id, from, d[0].offset - from), Fillers(d[1..], End(d[0]), p, id + 1));
      }
    }
  }

  lemma FillersStep(d: seq<Item>, from: nat, p: nat, id: nat)
    requires d != [] && d[0].offset < p
    ensures var more := from < d[0].offset;
            var rest := Fillers(d[1..], End(d[0]), p, if more then id + 1 else id);
            Fillers(d, from, p, id) == if more then [Item(id, from, d[0].offset - from)] + rest else rest
  {
  }

  lemma FillersPast(d: seq<Item>, from: nat, p: nat, id: nat, k: nat)
    requires (d == [] || p <= d[0].offset) && k < |Fillers(d, from, p, id)|
    ensures End(Fillers(d, from, p, id)[k]) == p
  {
  }

  lemma {:induction false} FillersApart(d: seq<Item>, from: nat, p: nat, id: nat, x: Item, k: nat)
    requires InOrder(d) && Positive(d) && !Inside(Set(d), p) && (d != [] ==> from <= d[0].offset)
    requires x in d && k < |Fillers(d, from, p, id)|
    ensures Disjoint(x, Fillers(d, from, p, id)[k])
    decreases |d|
  {
    hide Fillers, Inside;
    if x != d[0] { LaterInOrder(d, x); }
    if d[0].offset < p {
      var more := from < d[0].offset;
      var id' := if more then id + 1 else id;
      var rest := Fillers(d[1..], End(d[0]), p, id');
      FillersStep(d, from, p, id);
      HoleInRest(d, p);
      FillersBounds(d[1..], End(d[0]), p, id');
      if !more || 0 < k {
        var k' := if more then k - 1 else k;
        assert Fillers(d, from, p, id)[k] == rest[k'];
        if x != d[0] { FillersApart(d[1..], End(d[0]), p, id', x, k'); }
      }
    } else {
      FillersPast(d, from, p, id, k);
    }
  }

  lemma FillersFit(d: seq<Item>, from: nat, p: nat, id: nat)
    requires InOrder(d) && Positive(d) && !Inside(Set(d), p) && (d != [] ==> from <= d[0].offset)
    ensures var late := Fillers(d, from, p, id);
            && FreshItems(late, id) && InOrder(late)
            && (forall y :: y in late ==> from <= y.offset && End(y) <= p)
            && (forall x, y :: x in d && y in late ==> Disjoint(x, y))
  {
    hide Fillers, Inside, Disjoint;
    FillersBounds(d, from, p, id);
    var late := Fillers(d, from, p, id);
    forall x, y | x in d && y in late ensures Disjoint(x, y) {
      var k :| 0 <= k < |late| && late[k] == y;
      FillersApart(d, from, p, id, x, k);
    }
  }

  lemma {:induction false} FillersFill(d: seq<Item>, from: nat, p: nat, id: nat, q: nat)
    requires from <= q < p
    ensures Inside(Set(d) + Set(Fillers(d, from, p, id)), q)
    decreases |d|
  {
    var late := Fillers(d, from, p, id);
    if d == [] || p <= d[0].offset || q < d[0].offset {
      assert late[0] in Set(late);
    } else if q < End(d[0]) {
      assert d[0] in Set(d);
    } else {
      var id' := if from < d[0].offset then id + 1 else id;
      var rest := Fillers(d[1..], End(d[0]), p, id');
      FillersFill(d[1..], End(d[0]), p, id', q);
      var x :| x in Set(d[1..]) + Set(rest) && x.offset <= q < End(x);
      assert x in Set(d) + Set(late);
    }
  }

  /** With the holes below p filled, and p itself a hole, exactly what lies below p is sent out. */
  lemma RunStopsAt(d: seq<Item>, from: nat, p: nat)
    requires d != [] && InOrder(d) && d[0].offset == from && from < p && !Inside(Set(d), p)
    requires forall q: nat :: from <= q < p ==> Inside(Set(d), q)
    ensures from + Bytes(d[..Contiguous(d)]) == p
  {
    hide Bytes, Contiguous;
    var n := Contiguous(d);
    var e := from + Bytes(d[..n]);
    RunEnds(d);
    forall x | x in Set(d) ensures !(x.offset <= e < End(x)) {
      var i :| 0 <= i < |d| && d[i] == x;
      assert i < n || n <= i;
    }
    assert !Inside(Set(d), e);
    if p < e { RunCovers(d, p); }
  }

  /** A hole lets a full commit leave an item behind. */
  lemma HoleLeaves(f: Fc, w: Waiter, mdeb: nat, id: nat, x: Item, p: nat)
    requires Kept(f) && !f.stable && !f.running && f.pending == [] && InOrder(f.dirty) && x in f.dirty
    requires f.appendAt <= f.dirty[0].offset && f.appendAt + Bytes(f.dirty) <= p < End(x) && !Inside(Set(f.dirty), p)
    ensures !FullSafe(f, w, mdeb, id)
  {
    hide Kept, Bytes, Contiguous, InsertAll, EnsureCommit, Fillers, Inside;
    KeptFacts(f);
    BytesPositive(f.dirty);
    var late := Fillers(f.dirty, f.appendAt, p, id);
    FillersFit(f.dirty, f.appendAt, p, id);
    FreshPositive(late, id);
    InsertAllInOrder(f.dirty, late);
    var d := InsertAll(f.dirty, late);
    UnstableFull(f, w, mdeb, late);
    FilledRun(f.dirty, d, late, f.appendAt, p, id);
    RunEnds(d);
    assert x.offset > p by { BeyondHole(f.dirty, x, p); }
    assert x in Set(f.dirty) && x !in d[..Contiguous(d)];
  }

  lemma BeyondHole(d: seq<Item>, x: Item, p: nat)
    requires x in d && p < End(x) && !Inside(Set(d), p)
    ensures p < x.offset
  {
    assert x in Set(d);
  }

  lemma FilledRun(d0: seq<Item>, d: seq<Item>, late: seq<Item>, from: nat, p: nat, id: nat)
    requires d != [] && InOrder(d) && Set(d) == Set(d0) + Set(late) && late == Fillers(d0, from, p, id)
    requires (forall x :: x in d0 ==> from <= x.offset) && (forall y :: y in late ==> from <= y.offset && End(y) <= p)
    requires from < p && !Inside(Set(d0), p)
    ensures d[0].offset == from && from + Bytes(d[..Contiguous(d)]) == p
  {
    hide Bytes, Contiguous, Fillers;
    forall q: nat | from <= q < p ensures Inside(Set(d), q) { FillersFill(d0, from, p, id, q); }
    assert Inside(Set(d), from);
    var x :| x in Set(d) && x.offset <= from < End(x);
    var i :| 0 <= i < |d| && d[i] == x;
    assert d[0] in Set(d);
    assert d[0].offset == from;
    assert !Inside(Set(d), p);
    RunStopsAt(d, from, p);
  }

  /**
    A full commit on a stopped machine with nothing pending does what it is for, whatever writers add
    meanwhile, if and only if the dirty data starts before the append position, so that writes become
    stable, or has no hole at or beyond the append position plus its size.
   */
  lemma FullCommitSafeIff(f: Fc, w: Waiter, mdeb: nat, id: nat)
    requires Kept(f) && !f.stable && !f.running && f.pending == [] && f.dirty != [] && InOrder(f.dirty)
    ensures FullSafe(f, w, mdeb, id) <==>
            f.dirty[0].offset < f.appendAt || NoHole(Set(f.dirty), f.appendAt + Bytes(f.dirty))
  {
    hide Kept, Bytes, Contiguous, InsertAll, EnsureCommit, Inside;
    if f.dirty[0].offset < f.appendAt || NoHole(Set(f.dirty), f.appendAt + Bytes(f.dirty)) {
      forall late | FreshItems(late, id) && InOrder(InsertAll(f.dirty, late))
        ensures var g := EnsureCommit(f, w, true, mdeb, late); g.stable || Set(f.dirty) <= Set(g.inflight)
      {
        FreshPositive(late, id);
        CoversAll(f, w, mdeb, late);
      }
    } else {
      var x, p: nat :| x in Set(f.dirty) && f.appendAt + Bytes(f.dirty) <= p < End(x) && !Inside(Set(f.dirty), p);
      HoleLeaves(f, w, mdeb, id, x, p);
    }
  }

  lemma CoversAll(f: Fc, w: Waiter, mdeb: nat, late: seq<Item>)
    requires Kept(f) && !f.stable && !f.running && f.pending == [] && f.dirty != [] && Positive(late)
    requires InOrder(InsertAll(f.dirty, late))
    requires f.dirty[0].offset < f.appendAt || NoHole(Set(f.dirty), f.appendAt + Bytes(f.dirty))
    ensures var g := EnsureCommit(f, w, true, mdeb, late); g.stable || Set(f.dirty) <= Set(g.inflight)
  {
    hide Kept, Bytes, Contiguous, InsertAll, EnsureCommit, NoHole, ItemsOk, WaiterOk, Covered, ClaimOf;
    UnstableFull(f, w, mdeb, late);
    InsertAllSet(f.dirty, late);
    var d, g := InsertAll(f.dirty, late), EnsureCommit(f, w, true, mdeb, late);
    assert f.dirty[0] in Set(f.dirty);
    var i :| 0 <= i < |d| && d[i] == f.dirty[0];
    if !g.stable {
      ClaimHolds(f, true, mdeb, {});
      NoWaiter(f, ClaimOf(f, true, mdeb));
      CommitClaim(f, w, true, mdeb, late, {}, Nobody, ClaimOf(f, true, mdeb));
      FullClaim(f, g, mdeb);
    }
  }

  lemma NoWaiter(f: Fc, a: Claim)
    ensures WaiterOk(f, Nobody, a)
  {
  }

  lemma FullClaim(f: Fc, g: Fc, mdeb: nat)
    requires ItemsOk(g, {}, ClaimOf(f, true, mdeb)) && f.committed == f.flushing && g.pending == []
    requires f.flushing + Bytes(f.dirty) <= g.flushing && NoHole(Set(f.dirty), f.appendAt + Bytes(f.dirty))
    ensures Set(f.dirty) <= Set(g.inflight)
  {
    hide NoHole;
  }

  // ---------------------------------------------------------------- runs that leave something behind

  /** One flush in flight and one commit queued for it; `rest` is dirty. */
  ghost predicate Sent(f: Fc, out: seq<Item>, rest: seq<Item>, w: Waiter) {
    && f.flushing == Bytes(out) && f.flushed == f.committing == f.committed == 0 && f.running && !f.stable && !f.commitInProgress
    && f.ftgtq == [Tgt(Bytes(out), Nobody, false)] && |f.ctgtq| == 1 && f.ctgtq[0].goal == Bytes(out) && f.ctgtq[0].waiter == w
    && f.dirty == rest && f.inflight == out && f.pending == [] && f.answered == []
  }

  lemma SentEnds(f: Fc, out: seq<Item>, rest: seq<Item>, w: Waiter)
    requires Sent(f, out, rest, w) && Positive(out) && out != []
    ensures var g := Complete(f, 0, |out|);
            && g == f.(inflight := [], flushed := f.flushing, pending := InsertAll([], out))
            && Bytes(g.pending) == Bytes(out) && Set(g.pending) == Set(out)
  {
    hide InsertAll, Bytes;
    InsertAllBytes([], out);
    BytesPositive([]);
    assert out[0..|out|] == out && out[..0] + out[|out|..] == [];
    InsertAllSame(out);
  }

  lemma InsertAllSame(out: seq<Item>)
    ensures Set(InsertAll([], out)) == Set(out)
  {
    InsertAllBytes([], out);
    forall x ensures x in InsertAll([], out) <==> x in out {
      assert x in InsertAll([], out) <==> x in multiset(InsertAll([], out));
      assert x in out <==> x in multiset(out);
    }
  }

  lemma SentHandled(f: Fc, n: nat)
    requires 0 < n == f.flushing == f.flushed && Handles(f) && f.ftgtq == [Tgt(n, Nobody, false)]
    requires |f.ctgtq| == 1 && f.ctgtq[0].goal == n && Bytes(f.pending) == n
    ensures HandleFlush(f) == f.(ftgtq := [], committing := f.committing + n, commitInProgress := true)
  {
    var q := f.ftgtq;
    assert Met(q[1..], n) == 0 && Met(q, n) == 1 && q[1..] == [] && q[..1] == q;
    assert Waiters(q) == Told(Nobody) + Waiters(q[1..]);
  }

  lemma CommitHandled(f: Fc, n: nat, w: Waiter)
    requires f.committed == n && f.ftgtq == [] && |f.ctgtq| == 1 && f.ctgtq[0].goal == n && f.ctgtq[0].waiter == w && w != Nobody
    ensures HandleCommit(f) == f.(ctgtq := [], answered := f.answered + [w], running := false)
  {
    var q := f.ctgtq;
    assert Met(q[1..], n) == 0 && Met(q, n) == 1 && q[1..] == [] && q[..1] == q;
    assert Waiters(q) == Told(w) + Waiters(q[1..]);
  }

  /** The commit of what was flushed is under way. */
  ghost predicate CommitSent(f: Fc, out: seq<Item>, rest: seq<Item>, w: Waiter) {
    && f.flushed == f.flushing == Bytes(out) && f.committed == 0 && f.running && !f.stable && f.commitInProgress
    && f.ftgtq == [] && |f.ctgtq| == 1 && f.ctgtq[0].goal == Bytes(out) && f.ctgtq[0].waiter == w
    && f.dirty == rest && f.inflight == [] && Bytes(f.pending) == Bytes(out) && Set(f.pending) == Set(out) && f.answered == []
  }

  /** A run in which the dirty items never overlap. */
  ghost predicate ApartRun(ss: seq<Sys>, evs: seq<Event>) {
    Run(ss, evs) && forall k :: 0 <= k < |evs| ==> Apart(ss[k], evs[k])
  }

  lemma ExtendApart(ss: seq<Sys>, evs: seq<Event>, ev: Event)
    requires ApartRun(ss, evs) && Enabled(ss[|evs|], ev) && Apart(ss[|evs|], ev)
    ensures ApartRun(ss + [Next(ss[|evs|], ev)], evs + [ev])
  {
    hide Next, Enabled, Apart;
    Extend(ss, evs, ev);
  }

  lemma FlushRound(ss: seq<Sys>, evs: seq<Event>, out: seq<Item>, rest: seq<Item>, w: Waiter)
    returns (ss': seq<Sys>, evs': seq<Event>)
    requires ApartRun(ss, evs) && |ss| == |evs| + 1
    requires Sent(ss[|evs|].f, out, rest, w) && ss[|evs|].cbs == ss[|evs|].ccbs == 0 && ss[|evs|].written == {}
    requires Positive(out) && out != [] && InOrder(rest)
    ensures ApartRun(ss', evs') && |ss'| == |evs'| + 1 && evs <= evs' && ss <= ss'
    ensures var s := ss'[|evs'|]; CommitSent(s.f, out, rest, w) && s.cbs == s.ccbs == 0 && s.written == {}
  {
    hide ApartRun, InsertAll, Bytes, InOrder;
    BytesPositive(out);
    var s0, e1 := ss[|evs|], FlushEnds(0, |out|);
    SentEnds(s0.f, out, rest, w);
    ExtendApart(ss, evs, e1);
    var s1 := Next(s0, e1);
    SentHandled(s1.f, Bytes(out));
    ExtendApart(ss + [s1], evs + [e1], FlushCallback);
    ss', evs' := ss + [s1] + [Next(s1, FlushCallback)], evs + [e1] + [FlushCallback];
  }

  /** The flush ends, its callback starts the commit, that ends, and its callback tells the waiter; `rest` is dirty all along. */
  lemma OneRound(ss: seq<Sys>, evs: seq<Event>, out: seq<Item>, rest: seq<Item>, w: Waiter)
    returns (ss': seq<Sys>, evs': seq<Event>)
    requires ApartRun(ss, evs) && |ss| == |evs| + 1 && w != Nobody
    requires Sent(ss[|evs|].f, out, rest, w) && ss[|evs|].cbs == ss[|evs|].ccbs == 0 && ss[|evs|].written == {}
    requires Positive(out) && out != [] && InOrder(rest)
    ensures ApartRun(ss', evs') && |ss'| == |evs'| + 1 && evs <= evs' && ss <= ss'
    ensures var s := ss'[|evs'|]; !s.f.stable && s.f.answered == [w] && s.f.dirty == rest && s.written == Set(out) && !s.f.running
  {
    hide ApartRun, InsertAll, Bytes, InOrder;
    var ss1, evs1 := FlushRound(ss, evs, out, rest, w);
    var s2 := ss1[|evs1|];
    ExtendApart(ss1, evs1, CommitEnds);
    var s3 := Next(s2, CommitEnds);
    CommitHandled(s3.f, Bytes(out), w);
    ExtendApart(ss1 + [s3], evs1 + [CommitEnds], CommitCallback);
    ss', evs' := ss1 + [s3] + [Next(s3, CommitCallback)], evs1 + [CommitEnds] + [CommitCallback];
  }

  const X := Item(1, 5, 1)
  const C := Item(2, 1, 1)

  lemma HoleSent(f: Fc)
    requires f == START.f.(dirty := [A, X])
    ensures InsertAll([A, X], [C]) == [A, C, X]
    ensures Sent(EnsureCommit(f, Done(0), true, 0, [C]), [A, C], [X], Done(0))
  {
    var d := [A, C, X];
    assert [A, X][1..] == [X] && [X][1..] == [] && [C][1..] == [];
    assert Insert([X], C) == [C, X] && Insert([A, X], C) == [A] + Insert([X], C);
    assert InsertAll([A, C, X], []) == d;
    assert Bytes([X]) == 1 && Bytes([A, X]) == 2;
    assert d[1..] == [C, X] && [C, X][1..] == [X] && Contiguous([C, X]) == 1 && Contiguous(d) == 2;
    assert d[..2] == [A, C] && d[2..] == [X] && [A, C][1..] == [C] && Bytes([C]) == 1 && Bytes([A, C]) == 2;
    assert [] + [A, C] == [A, C];
  }

  lemma HoleWritten() returns (ss: seq<Sys>, evs: seq<Event>)
    ensures ApartRun(ss, evs) && |ss| == 3 && |evs| == 2 && ss[2] == START.(f := START.f.(dirty := [A, X]), nextId := 2)
  {
    assert ApartRun([START], []);
    hide ApartRun;
    ExtendApart([START], [], Write(A));
    var s1 := Next(START, Write(A));
    assert s1.f.dirty == [A];
    ExtendApart([START] + [s1], [] + [Write(A)], Write(X));
    assert Insert([A], X) == [A] + Insert([], X);
    ss, evs := [START] + [s1] + [Next(s1, Write(X))], [] + [Write(A)] + [Write(X)];
  }

  /**
    A run in which a full commit is told though an item that was dirty at the call is not written: [0, 1)
    and [5, 6) are dirty, [1, 2) becomes dirty before the dirty data is collected, and 2 bytes are sent.
   */
  lemma HoleLeavesWrite() returns (ss: seq<Sys>, evs: seq<Event>)
    ensures ApartRun(ss, evs) && |ss| == |evs| + 1 && 2 < |evs| && evs[2] == Commit(Done(0), true, 0, [C])
    ensures var f := ss[2].f; f.committed == f.flushing && X in f.dirty
    ensures var s := ss[|evs|]; !s.f.stable && Done(0) in s.f.answered && X !in s.written
  {
    hide ApartRun, EnsureCommit, Bytes, InsertAll;
    var ss0, evs0 := HoleWritten();
    var s, ev := ss0[2], Commit(Done(0), true, 0, [C]);
    HoleSent(s.f);
    ExtendApart(ss0, evs0, ev);
    var ss1, evs1 := ss0 + [Next(s, ev)], evs0 + [ev];
    ss, evs := OneRound(ss1, evs1, [A, C], [X], Done(0));
    assert ss[2] == ss1[2] && evs[2] == evs1[2];
  }

  /** The goal of a full commit is all that can be reached if and only if nothing is in flight or the front of the queue says so. */
  lemma FullGoalIff(f: Fc, w: Waiter, mdeb: nat, late: seq<Item>)
    requires Kept(f) && !f.stable && f.pending == [] && f.dirty != [] && Positive(late)
    ensures var g := EnsureCommit(f, w, true, mdeb, late);
            !g.stable ==>
              && g.ctgtq != []
              && (g.ctgtq[|g.ctgtq| - 1].goal == f.flushing + Bytes(f.dirty) <==>
                  f.inflight == [] || Front(f.ctgtq) == f.flushing + Bytes(f.dirty))
  {
    hide EnsureCommit;
    CommitAsked(f, w, true, mdeb, late);
    BytesPositive(f.inflight);
  }

  lemma EarlySent(f: Fc)
    requires f == START.f.(flushing := 1, running := true, ftgtq := [Tgt(1, Nobody, false)], appendAt := 1, inflight := [A], dirty := [B])
    ensures InsertAll([B], []) == [B] && Sent(EnsureCommit(f, Done(0), true, 0, []), [A], [B], Done(0))
  {
    TwoBytes();
  }

  /** A run in which a full commit asked for while a flush is in flight is told though what was dirty is not written. */
  lemma EarlyCommitLeavesWrite() returns (ss: seq<Sys>, evs: seq<Event>)
    ensures ApartRun(ss, evs) && |ss| == |evs| + 1 && 3 < |evs| && evs[3] == Commit(Done(0), true, 0, [])
    ensures ss[3].f.inflight != [] && B in ss[3].f.dirty
    ensures var s := ss[|evs|]; !s.f.stable && Done(0) in s.f.answered && B !in s.written
  {
    hide ApartRun, EnsureCommit, Bytes, InsertAll;
    var ss0, evs0 := OneInFlightApart();
    var s1 := Next(ss0[2], Write(B));
    ExtendApart(ss0, evs0, Write(B));
    assert s1.f.dirty == [B];
    var ev := Commit(Done(0), true, 0, []);
    EarlySent(s1.f);
    ExtendApart(ss0 + [s1], evs0 + [Write(B)], ev);
    var ss1, evs1 := ss0 + [s1] + [Next(s1, ev)], evs0 + [Write(B)] + [ev];
    ss, evs := OneRound(ss1, evs1, [A], [B], Done(0));
    assert ss[3] == ss1[3] && evs[3] == evs1[3];
  }

  lemma OneInFlightApart() returns (ss: seq<Sys>, evs: seq<Event>)
    ensures ApartRun(ss, evs) && |ss| == 3 && |evs| == 2
    ensures ss[2] == START.(f := START.f.(flushing := 1, running := true, ftgtq := [Tgt(1, Nobody, false)], appendAt := 1,
                                          inflight := [A]), nextId := 1)
  {
    assert ApartRun([START], []);
    assert InsertAll([A], []) == [A];
    hide ApartRun, EnsureFlush, InsertAll, Bytes;
    ExtendApart([START], [], Write(A));
    var s1 := Next(START, Write(A));
    assert s1 == START.(f := START.f.(dirty := [A]), nextId := 1);
    var ev := Flush(Nobody, []);
    OneSent(s1.f);
    NobodyAsked(multiset{});
    ExtendApart([START] + [s1], [] + [Write(A)], ev);
    ss, evs := [START] + [s1] + [Next(s1, ev)], [] + [Write(A)] + [ev];
  }
}
