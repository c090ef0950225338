/**
  The flush-commit state machine of one file (fcsm) with the parts of the inode it drives: which
  chunks are dirty, in flight and commit pending, whether writes are stable, and the append position
  that decides about it.

  The functions say what each call does to the machine; the methods of class FcsmMachine.Machine
  carry it out as the source does, under the flush lock, and are proved to do just that.
 */
module Fcsm {
  import opened Chunks

  /** A dirty chunk from the moment it was dirtied; dirtying it again after a flush makes another item. */
  datatype Item = Item(id: nat, offset: nat, length: nat)

  /** Who is to be told that a target is reached: nobody, a frontend write task, or a waiting thread. */
  datatype Waiter = Nobody | Task(id: nat) | Done(id: nat)

  /** A target: a value for flushed_seq_num or committed_seq_num to reach, according to the queue it is in. */
  datatype Tgt = Tgt(goal: nat, waiter: Waiter, full: bool)

  datatype Fc = Fc(
    flushing: nat,
    flushed: nat,
    committing: nat,
    committed: nat,
    running: bool,
    ftgtq: seq<Tgt>,
    ctgtq: seq<Tgt>,
    stable: bool,
    appendAt: nat,
    commitInProgress: bool,
    dirty: seq<Item>,
    inflight: seq<Item>,
    pending: seq<Item>,
    answered: seq<Waiter>)

  // ---------------------------------------------------------------- items

  function Bytes(items: seq<Item>): nat {
    if items == [] then 0 else items[0].length + Bytes(items[1..])
  }

  /** Items are kept in the order of the chunk map. */
  function Insert(items: seq<Item>, it: Item): seq<Item> {
    if items == [] || it.offset <= items[0].offset then [it] + items
    else [items[0]] + Insert(items[1..], it)
  }

  function InsertAll(items: seq<Item>, more: seq<Item>): seq<Item>
    decreases |more|
  {
    if more == [] then items else InsertAll(Insert(items, more[0]), more[1..])
  }

  /** How many items from the first on form one contiguous range. */
  function Contiguous(items: seq<Item>): (n: nat)
    ensures n <= |items| && (items != [] ==> 0 < n)
  {
    if |items| < 2 then |items|
    else if items[0].offset + items[0].length != items[1].offset then 1
    else 1 + Contiguous(items[1..])
  }

  /** How many of the dirty items, from the lowest offset on, a flush takes. */
  function Picked(f: Fc): (n: nat)
    ensures n <= |f.dirty| && (f.dirty != [] ==> 0 < n)
  {
    if f.stable then |f.dirty| else Contiguous(f.dirty)
  }

  // ---------------------------------------------------------------- targets

  function Front(q: seq<Tgt>): nat {
    if q == [] then 0 else q[0].goal
  }

  /** How many targets from the front on are reached at n. */
  function Met(q: seq<Tgt>, n: nat): (k: nat)
    ensures k <= |q| && (k < |q| ==> n < q[k].goal)
  {
    if q == [] || n < q[0].goal then 0 else 1 + Met(q[1..], n)
  }

  function Told(w: Waiter): seq<Waiter> {
    if w == Nobody then [] else [w]
  }

  function Waiters(q: seq<Tgt>): seq<Waiter> {
    if q == [] then [] else Told(q[0].waiter) + Waiters(q[1..])
  }

  // ---------------------------------------------------------------- what the calls do

  /** switch_to_stable_write(): commit-pending data becomes dirty again, waiters for a commit are told. */
  function Switch(f: Fc): Fc {
    f.(stable := true, dirty := InsertAll(f.dirty, f.pending), pending := [],
       ctgtq := [], answered := f.answered + Waiters(f.ctgtq))
  }

  predicate MustSwitch(f: Fc)
    requires f.dirty != []
  {
    !f.stable && f.appendAt != f.dirty[0].offset
  }

  /** sync_membufs() on the first n dirty items. */
  function Sync(f: Fc, n: nat): Fc
    requires n <= |f.dirty|
  {
    if n == 0 then f
    else
      var out, rest := f.dirty[..n], f.(dirty := f.dirty[n..]);
      var g := if MustSwitch(f) then Switch(rest)
               else if f.stable then rest
               else rest.(appendAt := f.appendAt + Bytes(out));
      g.(inflight := f.inflight + out, flushing := f.flushing + Bytes(out), running := true)
  }

  /** commit_membufs() on all that is commit pending. */
  function StartCommit(f: Fc): Fc {
    f.(committing := f.committing + Bytes(f.pending), running := true, commitInProgress := true)
  }

  function FlushGoal(f: Fc): nat {
    Max(f.flushing + Bytes(f.dirty), Front(f.ftgtq))
  }

  /** ensure_flush(); `late` is what writers make dirty between the count and the collection of dirty chunks. */
  function EnsureFlush(f: Fc, w: Waiter, full: bool, late: seq<Item>): Fc {
    var goal := FlushGoal(f);
    if f.running then
      if w == Nobody && goal == Front(f.ftgtq) then f
      else f.(ftgtq := f.ftgtq + [Tgt(goal, w, full)])
    else if goal == f.flushed then f.(answered := f.answered + Told(w))
    else
      var g := f.(dirty := InsertAll(f.dirty, late));
      var h := if MustFlushAll(f, g, full) then g.(stable := true) else g;
      var s := Sync(h, Picked(h));
      s.(ftgtq := s.ftgtq + [Tgt(goal, w, false)])
  }

  /** All dirty data is wanted, but it is not contiguous. */
  predicate MustFlushAll(f: Fc, g: Fc, full: bool) {
    !g.stable && full && Bytes(g.dirty[..Contiguous(g.dirty)]) < Bytes(f.dirty)
  }

  /** How many bytes ensure_commit() wants committed; mdeb is max_dirty_extent_bytes(). */
  function CommitBytes(f: Fc, full: bool, mdeb: nat): nat {
    if full then Bytes(f.dirty)
    else if f.pending != [] then Bytes(f.pending)
    else if mdeb < Bytes(f.dirty) then Bytes(f.dirty) - mdeb
    else 0
  }

  function CommitGoal(f: Fc, full: bool, mdeb: nat): nat {
    Max(f.committed + CommitBytes(f, full, mdeb), Front(f.ctgtq))
  }

  /** ensure_commit() */
  function EnsureCommit(f: Fc, w: Waiter, full: bool, mdeb: nat, late: seq<Item>): Fc {
    var goal := CommitGoal(f, full, mdeb);
    if CommitBytes(f, full, mdeb) == 0 then f.(answered := f.answered + Told(w))
    else if f.running then f.(ctgtq := f.ctgtq + [Tgt(goal, w, full)])
    else if f.flushed < goal then
      var g := EnsureFlush(f, Nobody, full, late);
      if !g.stable then g.(ctgtq := g.ctgtq + [Tgt(goal, w, false)])
      else if w.Done? then EnsureFlush(g, w, false, [])
      else g.(answered := g.answered + Told(w))
    else
      var g := StartCommit(f);
      g.(ctgtq := g.ctgtq + [Tgt(goal, w, false)])
  }

  /** What run() starts on behalf of a write that does not have to wait. */
  function Started(f: Fc, needCommit: bool, needFlush: bool, mdeb: nat): Fc {
    var g := if needCommit && !f.stable && !f.commitInProgress then EnsureCommit(f, Nobody, false, mdeb, []) else f;
    if needFlush then EnsureFlush(g, Nobody, false, []) else g
  }

  /** run(): what follows a write of the application. */
  function AfterWrite(f: Fc, w: Waiter, inline: bool, needCommit: bool, needFlush: bool, mdeb: nat): Fc {
    if inline then
      if f.stable then EnsureFlush(f, w, false, []) else EnsureCommit(f, w, false, mdeb, [])
    else
      var g := Started(f, needCommit, needFlush, mdeb);
      g.(answered := g.answered + Told(w))
  }

  /** A callback that gets past the tests under the lock: nothing is under way and the machine runs. */
  predicate Handles(f: Fc) {
    f.inflight == [] && !f.commitInProgress && f.running
  }

  /** Take the flush targets that are reached off the queue and tell their waiters. */
  function PopFlush(f: Fc): Fc {
    var k := Met(f.ftgtq, f.flushed);
    f.(ftgtq := f.ftgtq[k..], answered := f.answered + Waiters(f.ftgtq[..k]))
  }

  function PopCommit(f: Fc): Fc {
    var k := Met(f.ctgtq, f.committed);
    f.(ctgtq := f.ctgtq[k..], answered := f.answered + Waiters(f.ctgtq[..k]))
  }

  /** What to do next, all that was started being flushed. */
  function Continue(g: Fc): Fc {
    if g.ctgtq != [] && g.ctgtq[0].goal <= g.flushed then StartCommit(g)
    else if g.flushing < Front(g.ftgtq) || g.flushing < Front(g.ctgtq) then Sync(g, Picked(g))
    else if g.ftgtq == [] && g.ctgtq == [] then g.(running := false)
    else g // "Should not reach here"
  }

  /** The rest of on_flush_complete(), once it holds the flush lock. */
  function HandleFlush(f: Fc): Fc {
    if Handles(f) then Continue(PopFlush(f)) else f
  }

  /** The rest of on_commit_complete(), once it holds the flush lock. */
  function HandleCommit(f: Fc): Fc {
    var g := PopCommit(f);
    if g.ftgtq != [] || g.ctgtq != [] then Sync(g, Picked(g)) else g.(running := false)
  }

  /** ftgtq_cleanup() */
  function CleanUp(f: Fc): Fc {
    f.(ftgtq := [], answered := f.answered + Waiters(f.ftgtq))
  }

  /** A write makes a chunk dirty. */
  function Dirtied(f: Fc, it: Item): Fc {
    f.(dirty := Insert(f.dirty, it))
  }

  /** A backend write ends: the items i..j of those in flight are written, or wait for a commit. */
  function Complete(f: Fc, i: nat, j: nat): Fc
    requires i <= j <= |f.inflight|
  {
    var out := f.inflight[i..j];
    f.(inflight := f.inflight[..i] + f.inflight[j..], flushed := f.flushed + Bytes(out),
       pending := if f.stable then f.pending else InsertAll(f.pending, out))
  }

  /** The COMMIT ends: on_commit_complete() up to where it takes the flush lock. */
  function CommitReply(f: Fc): Fc {
    f.(commitInProgress := false, committed := f.committed + Bytes(f.pending), pending := [])
  }

  // ---------------------------------------------------------------- what the machine keeps

  predicate Positive(items: seq<Item>) {
    forall i :: 0 <= i < |items| ==> 0 < items[i].length
  }

  /** Every goal can be reached by flushing what is dirty now. */
  predicate Attainable(q: seq<Tgt>, n: nat) {
    forall i :: 0 <= i < |q| ==> 0 < q[i].goal <= n
  }

  predicate Ascending(q: seq<Tgt>) {
    forall i, j :: 0 <= i < j < |q| ==> q[i].goal <= q[j].goal
  }

  predicate Kept(f: Fc) {
    && Positive(f.dirty) && Positive(f.inflight) && Positive(f.pending)
    && f.flushing == f.flushed + Bytes(f.inflight)
    && f.committing == f.committed + (if f.commitInProgress then Bytes(f.pending) else 0)
    && (!f.running ==> f.ftgtq == [] && f.ctgtq == [] && f.inflight == [] && !f.commitInProgress)
    && (f.commitInProgress ==> f.inflight == [] && !f.stable && f.pending != [])
    && (f.stable ==> f.ctgtq == [] && f.pending == [])
    && (!f.stable ==> f.flushed == f.committed + Bytes(f.pending))
    && Ascending(f.ftgtq)
    && Attainable(f.ftgtq, f.flushing + Bytes(f.dirty))
    && Attainable(f.ctgtq, f.flushing + Bytes(f.dirty))
    && (f.running ==> 0 < f.flushing)
  }

  // ---------------------------------------------------------------- sums

  lemma {:induction false} BytesConcat(a: seq<Item>, b: seq<Item>)
    ensures Bytes(a + b) == Bytes(a) + Bytes(b)
  {
    if a == [] {
      assert a + b == b;
    } else {
      BytesConcat(a[1..], b);
      assert (a + b)[1..] == a[1..] + b;
    }
  }

  lemma BytesSplit(a: seq<Item>, n: nat)
    requires n <= |a|
    ensures Bytes(a) == Bytes(a[..n]) + Bytes(a[n..])
  {
    BytesConcat(a[..n], a[n..]);
    assert a == a[..n] + a[n..];
  }

  lemma BytesPositive(a: seq<Item>)
    requires Positive(a)
    ensures Bytes(a) == 0 <==> a == []
  {
  }

  lemma {:induction false} InsertBytes(a: seq<Item>, it: Item)
    ensures Bytes(Insert(a, it)) == Bytes(a) + it.length
    ensures multiset(Insert(a, it)) == multiset(a) + multiset{it}
  {
    if a == [] || it.offset <= a[0].offset {
      assert ([it] + a)[1..] == a;
    } else {
      InsertBytes(a[1..], it);
      assert a == [a[0]] + a[1..];
      assert ([a[0]] + Insert(a[1..], it))[1..] == Insert(a[1..], it);
    }
  }

  lemma {:induction false} InsertAllBytes(a: seq<Item>, b: seq<Item>)
    ensures Bytes(InsertAll(a, b)) == Bytes(a) + Bytes(b)
    ensures multiset(InsertAll(a, b)) == multiset(a) + multiset(b)
    decreases |b|
  {
    if b != [] {
      InsertBytes(a, b[0]);
      InsertAllBytes(Insert(a, b[0]), b[1..]);
      assert b == [b[0]] + b[1..];
    }
  }

  lemma InsertAllPositive(a: seq<Item>, b: seq<Item>)
    requires Positive(a) && Positive(b)
    ensures Positive(InsertAll(a, b))
  {
    InsertAllBytes(a, b);
    var r := InsertAll(a, b);
    forall i | 0 <= i < |r| ensures 0 < r[i].length {
      assert r[i] in multiset(r);
      assert r[i] in a || r[i] in b;
    }
  }

  // ---------------------------------------------------------------- every call keeps it

  /** A flush takes n dirty items; whether or not it switches to stable writes, no byte gets lost. */
  lemma SyncShape(f: Fc, n: nat)
    requires Positive(f.dirty) && Positive(f.pending) && 0 < n <= |f.dirty|
    ensures var g := Sync(f, n);
            && g.running && g.inflight == f.inflight + f.dirty[..n] && g.ftgtq == f.ftgtq
            && g.flushed == f.flushed && g.committed == f.committed && g.committing == f.committing
            && g.commitInProgress == f.commitInProgress && Positive(g.dirty)
            && (if MustSwitch(f) then
                  g.stable && g.ctgtq == [] && g.pending == []
                  && g.dirty == InsertAll(f.dirty[n..], f.pending)
                  && Bytes(g.dirty) == Bytes(f.dirty[n..]) + Bytes(f.pending)
                  && g.answered == f.answered + Waiters(f.ctgtq)
                else
                  g.stable == f.stable && g.ctgtq == f.ctgtq && g.pending == f.pending && g.dirty == f.dirty[n..]
                  && g.answered == f.answered)
  {
    hide InsertAll;
    InsertAllBytes(f.dirty[n..], f.pending);
    InsertAllPositive(f.dirty[n..], f.pending);
  }

  lemma SyncBytes(f: Fc, n: nat)
    requires Positive(f.dirty) && 0 < n <= |f.dirty|
    ensures var g := Sync(f, n);
            && g.flushing == f.flushing + Bytes(f.dirty[..n]) && f.flushing < g.flushing
            && Bytes(f.dirty) == Bytes(f.dirty[..n]) + Bytes(f.dirty[n..])
            && Bytes(g.inflight) == Bytes(f.inflight) + Bytes(f.dirty[..n]) && g.inflight != []
  {
    hide InsertAll;
    BytesSplit(f.dirty, n);
    BytesConcat(f.inflight, f.dirty[..n]);
    BytesPositive(f.dirty[..n]);
  }

  lemma SyncKeeps(f: Fc, n: nat)
    requires Kept(f) && !f.commitInProgress && 0 < n <= |f.dirty|
    ensures Kept(Sync(f, n))
    ensures var g := Sync(f, n);
            && g.running && g.inflight == f.inflight + f.dirty[..n] && g.inflight != []
            && g.flushing == f.flushing + Bytes(f.dirty[..n]) && f.flushing < g.flushing
            && f.flushing + Bytes(f.dirty) <= g.flushing + Bytes(g.dirty)
            && g.ftgtq == f.ftgtq && g.flushed == f.flushed && (f.stable ==> g.dirty == f.dirty[n..] && g.stable)
  {
    hide InsertAll, Sync, Bytes;
    SyncShape(f, n);
    SyncBytes(f, n);
  }

  lemma AppendFlush(f: Fc, t: Tgt)
    requires Kept(f) && f.running && 0 < t.goal <= f.flushing + Bytes(f.dirty)
    requires forall i :: 0 <= i < |f.ftgtq| ==> f.ftgtq[i].goal <= t.goal
    ensures Kept(f.(ftgtq := f.ftgtq + [t]))
  {
  }

  lemma AppendCommit(f: Fc, t: Tgt)
    requires Kept(f) && f.running && !f.stable && 0 < t.goal <= f.flushing + Bytes(f.dirty)
    ensures Kept(f.(ctgtq := f.ctgtq + [t]))
  {
  }

  /** A flush goal is at least every goal queued before, and no more than what can be reached. */
  lemma FlushGoalIsLast(f: Fc)
    requires Kept(f)
    ensures FlushGoal(f) == f.flushing + Bytes(f.dirty)
    ensures forall i :: 0 <= i < |f.ftgtq| ==> f.ftgtq[i].goal <= FlushGoal(f)
  {
  }

  lemma LateKeeps(f: Fc, late: seq<Item>)
    requires Kept(f) && Positive(late)
    ensures Kept(f.(dirty := InsertAll(f.dirty, late)))
    ensures Bytes(InsertAll(f.dirty, late)) == Bytes(f.dirty) + Bytes(late)
  {
    hide InsertAll;
    InsertAllBytes(f.dirty, late);
    InsertAllPositive(f.dirty, late);
  }

  lemma EnsureFlushKeeps(f: Fc, w: Waiter, full: bool, late: seq<Item>)
    requires Kept(f) && Positive(late) && (full ==> f.pending == [])
    ensures Kept(EnsureFlush(f, w, full, late))
  {
    hide Kept, InsertAll, Contiguous, Sync;
    FlushGoalIsLast(f);
    if f.running {
      assert 0 < f.flushing by { KeptFacts(f); }
      AppendFlush(f, Tgt(FlushGoal(f), w, full));
    } else if FlushGoal(f) == f.flushed {
      AnswerKeeps(f, w);
    } else {
      LateKeeps(f, late);
      var g := f.(dirty := InsertAll(f.dirty, late));
      var h := if MustFlushAll(f, g, full) then g.(stable := true) else g;
      KeptFacts(f);
      assert Kept(h) by { if MustFlushAll(f, g, full) { StableKeeps(g); } }
      SyncKeeps(h, Picked(h));
      AppendFlush(Sync(h, Picked(h)), Tgt(FlushGoal(f), w, false));
    }
  }

  lemma KeptFacts(f: Fc)
    requires Kept(f)
    ensures f.running ==> 0 < f.flushing
    ensures !f.running ==> f.ftgtq == [] && f.ctgtq == [] && f.inflight == [] && !f.commitInProgress
    ensures f.inflight == [] ==> f.flushing == f.flushed
    ensures Positive(f.dirty) && Positive(f.pending)
    ensures !f.stable ==> f.flushed == f.committed + Bytes(f.pending)
  {
  }

  lemma StableKeeps(f: Fc)
    requires Kept(f) && !f.running && f.pending == []
    ensures Kept(f.(stable := true))
  {
  }

  lemma AnswerKeeps(f: Fc, w: Waiter)
    requires Kept(f)
    ensures Kept(f.(answered := f.answered + Told(w)))
  {
  }

  lemma StartCommitKeeps(f: Fc)
    requires Kept(f) && f.inflight == [] && !f.commitInProgress && !f.stable && f.pending != []
    ensures Kept(StartCommit(f))
    ensures StartCommit(f).committing == f.flushed
  {
    BytesPositive(f.pending);
  }

  lemma EnsureCommitKeeps(f: Fc, w: Waiter, full: bool, mdeb: nat, late: seq<Item>)
    requires Kept(f) && !f.stable && Positive(late) && (full ==> f.pending == [])
    ensures Kept(EnsureCommit(f, w, full, mdeb, late))
  {
    hide Kept, InsertAll, Contiguous, Sync, EnsureFlush;
    KeptFacts(f);
    AnswerKeeps(f, w);
    var goal := CommitGoal(f, full, mdeb);
    if CommitBytes(f, full, mdeb) == 0 {
      return;
    }
    CommitGoalAttainable(f, full, mdeb);
    if f.running {
      AppendCommit(f, Tgt(goal, w, full));
    } else if f.flushed < goal {
      var g := EnsureFlush(f, Nobody, full, late);
      EnsureFlushKeeps(f, Nobody, full, late);
      EnsureFlushGrows(f, Nobody, full, late);
      if !g.stable {
        AppendCommit(g, Tgt(goal, w, false));
      } else if w.Done? {
        EnsureFlushKeeps(g, w, false, []);
      } else {
        AnswerKeeps(g, w);
      }
    } else {
      BytesPositive(f.pending);
      StartCommitKeeps(f);
      AppendCommit(StartCommit(f), Tgt(goal, w, false));
    }
  }

  /** A commit goal lies above what is committed and within reach. */
  lemma CommitGoalAttainable(f: Fc, full: bool, mdeb: nat)
    requires Kept(f) && !f.stable && CommitBytes(f, full, mdeb) != 0
    ensures f.committed < CommitGoal(f, full, mdeb) <= f.flushing + Bytes(f.dirty)
    ensures !f.running && f.flushed < CommitGoal(f, full, mdeb) ==> f.dirty != []
    ensures !f.running && CommitGoal(f, full, mdeb) <= f.flushed ==> f.pending != []
  {
  }

  lemma EnsureFlushGrows(f: Fc, w: Waiter, full: bool, late: seq<Item>)
    requires Kept(f) && !f.running && f.dirty != [] && Positive(late) && (full ==> f.pending == [])
    ensures var g := EnsureFlush(f, w, full, late);
            && g.running && g.inflight != [] && f.flushing + Bytes(f.dirty) <= g.flushing + Bytes(g.dirty)
            && g.ftgtq == [Tgt(f.flushing + Bytes(f.dirty), w, false)]
  {
    hide Kept, InsertAll, Contiguous, Sync;
    FlushGoalIsLast(f);
    KeptFacts(f);
    BytesPositive(f.dirty);
    LateKeeps(f, late);
    var g := f.(dirty := InsertAll(f.dirty, late));
    var h := if MustFlushAll(f, g, full) then g.(stable := true) else g;
    assert Kept(h) by { if MustFlushAll(f, g, full) { StableKeeps(g); } }
    SyncKeeps(h, Picked(h));
  }

  // ---------------------------------------------------------------- what a call asks for

  /** A target of at least this goal is queued; if somebody waits, it is his. */
  ghost predicate Awaits(q: seq<Tgt>, w: Waiter, goal: nat) {
    exists k :: 0 <= k < |q| && goal <= q[k].goal && (w == Nobody || q[k].waiter == w)
  }

  /**
    ensure_flush() returns at once, the waiter told, only if nothing is dirty and nothing under way.
    Otherwise the machine runs and a target is queued that covers everything not yet flushed.
   */
  ghost predicate FlushAsks(f: Fc, g: Fc, w: Waiter) {
    if !f.running && f.dirty == [] then
      g == f.(answered := f.answered + Told(w))
    else
      && g.running && g.answered == f.answered && Awaits(g.ftgtq, w, f.flushing + Bytes(f.dirty))
      && (!f.running ==> g.inflight != [])
  }

  lemma FlushAsked(f: Fc, w: Waiter, full: bool, late: seq<Item>)
    requires Kept(f) && Positive(late) && (full ==> f.pending == [])
    ensures FlushAsks(f, EnsureFlush(f, w, full, late), w)
  {
    hide Kept, InsertAll, Sync, Picked, MustFlushAll, Bytes;
    FlushGoalIsLast(f);
    KeptFacts(f);
    BytesPositive(f.dirty);
    var g := EnsureFlush(f, w, full, late);
    if f.running {
      var k := if g.ftgtq == f.ftgtq then 0 else |f.ftgtq|;
      assert g.ftgtq[k].goal == f.flushing + Bytes(f.dirty);
    } else if f.dirty != [] {
      hide EnsureFlush;
      EnsureFlushGrows(f, w, full, late);
      assert g.ftgtq[0].goal == f.flushing + Bytes(f.dirty);
      KickAnswers(f, w, full, late);
    }
  }

  lemma KickAnswers(f: Fc, w: Waiter, full: bool, late: seq<Item>)
    requires !f.running && f.ctgtq == [] && FlushGoal(f) != f.flushed
    ensures EnsureFlush(f, w, full, late).answered == f.answered
  {
    hide InsertAll, Sync, Picked, MustFlushAll, Bytes;
    var h := f.(dirty := InsertAll(f.dirty, late));
    var h' := if MustFlushAll(f, h, full) then h.(stable := true) else h;
    SyncAnswers(h', Picked(h'));
  }

  lemma SyncAnswers(f: Fc, n: nat)
    requires n <= |f.dirty| && f.ctgtq == []
    ensures Sync(f, n).answered == f.answered
  {
  }

  /** The new target of a commit: its goal is what is asked for, or that of the target at the front if that is higher. */
  ghost predicate Queues(f: Fc, g: Fc, w: Waiter, goal: nat) {
    && |g.ctgtq| == |f.ctgtq| + 1 && g.ctgtq[..|f.ctgtq|] == f.ctgtq
    && var t := g.ctgtq[|f.ctgtq|];
    t.waiter == w && t.goal == Max(goal, Front(f.ctgtq))
  }

  /**
    ensure_commit() returns at once only if there is nothing to do: for a full commit nothing dirty, else
    nothing commit pending and no more dirty than may stay.  Otherwise the machine runs and a target is
    queued: for all that is dirty, or for all that is commit pending, or for what is dirty but for mdeb
    bytes.  If the flush that it starts makes writes stable, a flush of everything is on its way; a
    waiting task is told and a waiting thread waits for that.
   */
  ghost predicate CommitAsks(f: Fc, g: Fc, w: Waiter, full: bool, mdeb: nat) {
    if (if full then f.dirty == [] else f.pending == [] && Bytes(f.dirty) <= mdeb) then
      g == f.(answered := f.answered + Told(w))
    else
      && g.running
      && g.answered == f.answered + (if g.stable && !w.Done? then Told(w) else [])
      && (g.stable ==> Awaits(g.ftgtq, if w.Done? then w else Nobody, f.flushing + Bytes(f.dirty)))
      && (!g.stable ==> Queues(f, g, w, if full then f.committed + Bytes(f.dirty)
                                        else if f.pending != [] then f.flushed
                                        else f.committed + (Bytes(f.dirty) - mdeb)))
  }

  lemma CommitAsked(f: Fc, w: Waiter, full: bool, mdeb: nat, late: seq<Item>)
    requires Kept(f) && !f.stable && Positive(late) && (full ==> f.pending == [])
    ensures CommitAsks(f, EnsureCommit(f, w, full, mdeb, late), w, full, mdeb)
  {
    hide Kept, EnsureFlush, Awaits, Bytes, Told;
    KeptFacts(f);
    BytesPositive(f.dirty);
    BytesPositive(f.pending);
    if CommitBytes(f, full, mdeb) == 0 {
      return;
    }
    CommitGoalAttainable(f, full, mdeb);
    if !f.running && f.flushed < CommitGoal(f, full, mdeb) {
      KickAsks(f, w, full, late);
    }
  }

  /** The flush that a commit on a stopped machine starts, and the wait for it if writes become stable. */
  lemma KickAsks(f: Fc, w: Waiter, full: bool, late: seq<Item>)
    requires Kept(f) && !f.running && f.dirty != [] && Positive(late) && (full ==> f.pending == [])
    ensures var h := EnsureFlush(f, Nobody, full, late);
            && h.running && h.answered == f.answered && h.ctgtq == [] == f.ctgtq
            && Awaits(h.ftgtq, Nobody, f.flushing + Bytes(f.dirty))
            && var g := EnsureFlush(h, w, false, []);
            g.running && g.stable == h.stable && g.answered == f.answered
            && (h.stable ==> Awaits(g.ftgtq, w, f.flushing + Bytes(f.dirty)))
  {
    hide Kept, EnsureFlush, Awaits;
    var h := EnsureFlush(f, Nobody, full, late);
    KeptFacts(f);
    FlushAsked(f, Nobody, full, late);
    EnsureFlushGrows(f, Nobody, full, late);
    EnsureFlushKeeps(f, Nobody, full, late);
    QueueStays(f, Nobody, full, late);
    FlushAsked(h, w, false, []);
    AwaitsLess(EnsureFlush(h, w, false, []).ftgtq, w, h.flushing + Bytes(h.dirty), f.flushing + Bytes(f.dirty));
    RunningStays(h, w);
  }

  lemma AwaitsLess(q: seq<Tgt>, w: Waiter, goal: nat, less: nat)
    requires Awaits(q, w, goal) && less <= goal
    ensures Awaits(q, w, less)
  {
  }

  lemma QueueStays(f: Fc, w: Waiter, full: bool, late: seq<Item>)
    requires f.ctgtq == []
    ensures EnsureFlush(f, w, full, late).ctgtq == []
  {
  }

  lemma RunningStays(f: Fc, w: Waiter)
    requires f.running
    ensures var g := EnsureFlush(f, w, false, []);
            && g.running && g.stable == f.stable && g.ctgtq == f.ctgtq
            && forall goal: nat :: Awaits(f.ftgtq, Nobody, goal) ==> Awaits(g.ftgtq, Nobody, goal)
  {
    var g := EnsureFlush(f, w, false, []);
    forall goal: nat | Awaits(f.ftgtq, Nobody, goal) ensures Awaits(g.ftgtq, Nobody, goal) {
      var k :| 0 <= k < |f.ftgtq| && goal <= f.ftgtq[k].goal;
      assert g.ftgtq[k] == f.ftgtq[k];
    }
  }

  /** A full commit with nothing in flight or commit pending asks for all that is dirty to be committed. */
  lemma FullCommitGoal(f: Fc, w: Waiter, mdeb: nat, late: seq<Item>)
    requires Kept(f) && !f.stable && Positive(late) && f.committed == f.flushing && f.dirty != []
    ensures var g := EnsureCommit(f, w, true, mdeb, late);
            !g.stable ==> && g.ctgtq != []
                          && var t := g.ctgtq[|g.ctgtq| - 1]; t.waiter == w && t.goal == f.flushing + Bytes(f.dirty)
  {
    hide EnsureCommit;
    BytesPositive(f.pending);
    BytesPositive(f.dirty);
    CommitAsked(f, w, true, mdeb, late);
  }

  lemma FlushReach(f: Fc, w: Waiter, full: bool, late: seq<Item>)
    requires Kept(f) && Positive(late) && (full ==> f.pending == [])
    ensures var g := EnsureFlush(f, w, full, late); f.flushing + Bytes(f.dirty) <= g.flushing + Bytes(g.dirty)
  {
    hide Kept, Sync, InsertAll;
    FlushGoalIsLast(f);
    KeptFacts(f);
    if !f.running && f.dirty != [] { EnsureFlushGrows(f, w, full, late); }
  }

  lemma CommitReach(f: Fc, w: Waiter, full: bool, mdeb: nat, late: seq<Item>)
    requires Kept(f) && !f.stable && Positive(late) && (full ==> f.pending == [])
    ensures var g := EnsureCommit(f, w, full, mdeb, late); f.flushing + Bytes(f.dirty) <= g.flushing + Bytes(g.dirty)
  {
    hide Kept, EnsureFlush;
    if CommitBytes(f, full, mdeb) != 0 && !f.running && f.flushed < CommitGoal(f, full, mdeb) {
      FlushReach(f, Nobody, full, late);
      EnsureFlushKeeps(f, Nobody, full, late);
      FlushReach(EnsureFlush(f, Nobody, full, late), w, false, []);
    }
  }

  /**
    What a write that need not wait sets going: if a flush is needed and something is dirty, a flush of
    everything; if a commit is needed and there is something to commit, a commit of it, or a flush of
    everything where that makes writes stable; if neither is needed, nothing.
   */
  lemma StartedAsks(f: Fc, needCommit: bool, needFlush: bool, mdeb: nat)
    requires Kept(f)
    ensures var g := Started(f, needCommit, needFlush, mdeb);
            && (needFlush && f.dirty != [] ==> g.running && Awaits(g.ftgtq, Nobody, f.flushing + Bytes(f.dirty)))
            && (needCommit && !f.stable && !f.commitInProgress && (f.pending != [] || mdeb < Bytes(f.dirty)) ==>
                  && g.running
                  && (g.stable ==> Awaits(g.ftgtq, Nobody, f.flushing + Bytes(f.dirty)))
                  && (!g.stable ==> Awaits(g.ctgtq, Nobody, if f.pending != [] then f.flushed
                                                            else f.committed + (Bytes(f.dirty) - mdeb))))
            && (!needCommit && !needFlush ==> g == f)
            && Kept(g)
  {
    hide Kept, EnsureFlush, EnsureCommit;
    var h := f;
    if needCommit && !f.stable && !f.commitInProgress {
      h := EnsureCommit(f, Nobody, false, mdeb, []);
      CommitAsked(f, Nobody, false, mdeb, []);
      EnsureCommitKeeps(f, Nobody, false, mdeb, []);
      CommitReach(f, Nobody, false, mdeb, []);
      if h.running && !h.stable && (f.pending != [] || mdeb < Bytes(f.dirty)) {
        LastAwaits(f, h, if f.pending != [] then f.flushed else f.committed + (Bytes(f.dirty) - mdeb));
      }
    }
    if needFlush {
      FlushAsked(h, Nobody, false, []);
      EnsureFlushKeeps(h, Nobody, false, []);
      if h.running { RunningStays(h, Nobody); }
      if f.dirty != [] {
        AwaitsLess(EnsureFlush(h, Nobody, false, []).ftgtq, Nobody, h.flushing + Bytes(h.dirty), f.flushing + Bytes(f.dirty));
      }
    }
  }

  lemma LastAwaits(f: Fc, g: Fc, goal: nat)
    requires Queues(f, g, Nobody, goal)
    ensures Awaits(g.ctgtq, Nobody, goal)
  {
  }

  /** A write that waits for its data asks for the flush, or for the commit, and is told at once only if there is nothing to do. */
  lemma InlineAsks(f: Fc, w: Waiter, needCommit: bool, needFlush: bool, mdeb: nat)
    requires Kept(f) && w.Task?
    ensures var g := AfterWrite(f, w, true, needCommit, needFlush, mdeb);
            if f.stable then FlushAsks(f, g, w) else CommitAsks(f, g, w, false, mdeb)
  {
    hide Kept, EnsureFlush, EnsureCommit;
    FlushAsked(f, w, false, []);
    if !f.stable { CommitAsked(f, w, false, mdeb, []); }
  }

  lemma CleanUpKeeps(f: Fc)
    requires Kept(f)
    ensures Kept(CleanUp(f))
  {
  }

  lemma DirtiedKeeps(f: Fc, it: Item)
    requires Kept(f) && 0 < it.length
    ensures Kept(Dirtied(f, it))
  {
    hide Insert;
    InsertBytes(f.dirty, it);
    var r := Insert(f.dirty, it);
    forall i | 0 <= i < |r| ensures 0 < r[i].length {
      assert r[i] in multiset(r);
      assert r[i] == it || r[i] in f.dirty;
    }
  }

  lemma CutBytes(a: seq<Item>, i: nat, j: nat)
    requires i <= j <= |a|
    ensures Bytes(a) == Bytes(a[i..j]) + Bytes(a[..i] + a[j..])
    ensures Positive(a) ==> Positive(a[i..j]) && Positive(a[..i] + a[j..])
  {
    hide Bytes;
    BytesSplit(a, i);
    BytesSplit(a[i..], j - i);
    assert a[i..][..j - i] == a[i..j] && a[i..][j - i..] == a[j..];
    BytesConcat(a[..i], a[j..]);
  }

  lemma CompleteKeeps(f: Fc, i: nat, j: nat)
    requires Kept(f) && i < j <= |f.inflight|
    ensures Kept(Complete(f, i, j))
  {
    hide InsertAll, Bytes;
    CutBytes(f.inflight, i, j);
    InsertAllBytes(f.pending, f.inflight[i..j]);
    InsertAllPositive(f.pending, f.inflight[i..j]);
  }

  /** When a commit ends, everything flushed has been committed. */
  lemma CommitReplyKeeps(f: Fc)
    requires Kept(f) && f.commitInProgress
    ensures Kept(CommitReply(f))
    ensures var g := CommitReply(f); g.flushing == g.flushed == g.committing == g.committed
  {
  }

  /** The first commit target lies above what is committed. */
  predicate CommitAhead(f: Fc) {
    f.ctgtq != [] ==> f.committed < f.ctgtq[0].goal
  }

  /** Nothing but queues and answers may differ. */
  predicate Unmoved(f: Fc, g: Fc) {
    && g.flushing == f.flushing && g.flushed == f.flushed
    && g.committing == f.committing && g.committed == f.committed
    && g.running == f.running && g.stable == f.stable && g.appendAt == f.appendAt
    && g.commitInProgress == f.commitInProgress
    && g.dirty == f.dirty && g.inflight == f.inflight && g.pending == f.pending
  }

  lemma PopFlushKeeps(f: Fc)
    requires Kept(f)
    ensures Kept(PopFlush(f))
    ensures forall i :: 0 <= i < |PopFlush(f).ftgtq| ==> f.flushed < PopFlush(f).ftgtq[i].goal
    ensures PopFlush(f).ftgtq != [] ==> f.running
    ensures Unmoved(f, PopFlush(f)) && PopFlush(f).ctgtq == f.ctgtq
  {
  }

  lemma PopCommitKeeps(f: Fc)
    requires Kept(f)
    ensures Kept(PopCommit(f)) && CommitAhead(PopCommit(f))
    ensures PopCommit(f).ctgtq != [] ==> f.running
    ensures Unmoved(f, PopCommit(f)) && PopCommit(f).ftgtq == f.ftgtq
  {
  }

  /**
    A callback that gets past the tests under the lock finds everything flushed that was started.  It
    starts a commit for which there is data, or a flush that reaches the next goal,
    or stops the machine with nothing left to wait for; it never gets to the last branch.
   */
  lemma HandleFlushKeeps(f: Fc)
    requires Kept(f) && CommitAhead(f) && Handles(f)
    ensures f.flushed == f.flushing
    ensures Kept(HandleFlush(f)) && CommitAhead(HandleFlush(f))
    ensures Continues(PopFlush(f), HandleFlush(f))
  {
    hide Kept, PopFlush, Continue, Continues;
    PopFlushKeeps(f);
    KeptFacts(f);
    ContinueKeeps(PopFlush(f));
  }

  /** The three ways to go on: a commit that can be met comes first, then whatever else is waited for. */
  predicate Continues(g: Fc, h: Fc) {
    && (h.commitInProgress <==> g.ctgtq != [] && g.ctgtq[0].goal <= g.flushed)
    && (h.running <==> g.ftgtq != [] || g.ctgtq != [])
    && if h.commitInProgress then
         h == StartCommit(g) && g.pending != [] && h.committing == g.flushed
       else if h.running then
         && h == Sync(g, Picked(g)) && h.inflight != []
         && (g.stable ==> h.dirty == [] && Front(g.ftgtq) <= h.flushing)
       else
         h == g.(running := false) && h.inflight == []
  }

  lemma ContinueKeeps(g: Fc)
    requires Kept(g) && CommitAhead(g) && Handles(g) && (g.ftgtq != [] ==> g.flushed < g.ftgtq[0].goal)
    ensures Kept(Continue(g)) && CommitAhead(Continue(g)) && Continues(g, Continue(g))
  {
    hide Sync, Kept, Contiguous;
    KeptFacts(g);
    if g.ctgtq != [] && g.ctgtq[0].goal <= g.flushed {
      CommitHasData(g);
      StartCommitKeeps(g);
    } else if g.flushing < Front(g.ftgtq) || g.flushing < Front(g.ctgtq) {
      GoalNeedsDirty(g);
      SyncKeeps(g, Picked(g));
      SyncShape(g, Picked(g));
      if g.stable {
        assert g.dirty[..|g.dirty|] == g.dirty && g.dirty[|g.dirty|..] == [];
      }
    } else {
      IdleKeeps(g);
    }
  }

  lemma CommitHasData(f: Fc)
    requires Kept(f) && f.ctgtq != [] && f.committed < f.ctgtq[0].goal <= f.flushed
    ensures !f.stable && f.pending != []
  {
  }

  lemma GoalNeedsDirty(f: Fc)
    requires Kept(f) && (f.flushing < Front(f.ftgtq) || f.flushing < Front(f.ctgtq))
    ensures f.dirty != []
    ensures Max(Front(f.ftgtq), Front(f.ctgtq)) - f.flushing <= Bytes(f.dirty)
  {
  }

  lemma IdleKeeps(f: Fc)
    requires Kept(f) && f.inflight == [] && !f.commitInProgress
    requires Front(f.ftgtq) <= f.flushing && Front(f.ctgtq) <= f.flushing
    requires f.ftgtq != [] ==> f.flushed < f.ftgtq[0].goal
    requires f.ctgtq != [] ==> f.flushed < f.ctgtq[0].goal
    ensures f.ftgtq == [] && f.ctgtq == [] && Kept(f.(running := false))
  {
  }

  /**
    The callback of a commit answers the commits that are done, then flushes on or stops the machine.
    It leaves the machine running with nothing under way exactly when a flush target is queued and
    nothing is dirty.
   */
  lemma HandleCommitKeeps(f: Fc)
    requires Kept(f) && Handles(f) && f.committed == f.flushed
    ensures Kept(HandleCommit(f)) && CommitAhead(HandleCommit(f))
    ensures var h := HandleCommit(f);
            && (!h.running ==> h.ftgtq == [] && h.ctgtq == [])
            && (h.running && h.inflight == [] <==> f.ftgtq != [] && f.dirty == [])
            && !h.commitInProgress
  {
    hide Sync, Kept, PopCommit, Contiguous;
    PopCommitKeeps(f);
    var g := PopCommit(f);
    KeptFacts(g);
    if g.ctgtq != [] {
      GoalNeedsDirty(g);
    }
    if g.ftgtq != [] || g.ctgtq != [] {
      if g.dirty != [] {
        SyncKeeps(g, Picked(g));
        SyncShape(g, Picked(g));
      } else {
        assert Sync(g, 0) == g by { SyncNothing(g); }
      }
    } else {
      IdleKeeps(g);
    }
  }

  lemma SyncNothing(f: Fc)
    ensures Sync(f, 0) == f
  {
  }

  // ---------------------------------------------------------------- every waiter is told exactly once

  /** Whoever was asked for is either waiting in one of the queues or has been told, as many times as asked. */
  ghost predicate Accounted(f: Fc, asked: multiset<Waiter>) {
    multiset(f.answered) + multiset(Waiters(f.ftgtq)) + multiset(Waiters(f.ctgtq)) == asked
  }

  lemma {:induction false} WaitersConcat(p: seq<Tgt>, q: seq<Tgt>)
    ensures Waiters(p + q) == Waiters(p) + Waiters(q)
  {
    if p == [] {
      assert p + q == q;
    } else {
      hide Told;
      WaitersConcat(p[1..], q);
      assert (p + q)[1..] == p[1..] + q && (p + q)[0] == p[0];
      Associates(Told(p[0].waiter), Waiters(p[1..]), Waiters(q));
    }
  }

  lemma Associates(a: seq<Waiter>, b: seq<Waiter>, c: seq<Waiter>)
    ensures (a + b) + c == a + (b + c)
  {
  }

  lemma WaitersAppend(q: seq<Tgt>, t: Tgt)
    ensures Waiters(q + [t]) == Waiters(q) + Told(t.waiter)
  {
    WaitersConcat(q, [t]);
    assert [t][1..] == [];
  }

  lemma WaitersSplit(q: seq<Tgt>, k: nat)
    requires k <= |q|
    ensures Waiters(q) == Waiters(q[..k]) + Waiters(q[k..])
  {
    WaitersConcat(q[..k], q[k..]);
    assert q == q[..k] + q[k..];
  }

  lemma SyncAccounts(f: Fc, n: nat, asked: multiset<Waiter>)
    requires Accounted(f, asked) && n <= |f.dirty|
    ensures Accounted(Sync(f, n), asked)
  {
  }

  lemma AppendAccounts(f: Fc, t: Tgt, asked: multiset<Waiter>)
    requires Accounted(f, asked)
    ensures Accounted(f.(ftgtq := f.ftgtq + [t]), asked + multiset(Told(t.waiter)))
    ensures Accounted(f.(ctgtq := f.ctgtq + [t]), asked + multiset(Told(t.waiter)))
    ensures Accounted(f.(answered := f.answered + Told(t.waiter)), asked + multiset(Told(t.waiter)))
  {
    WaitersAppend(f.ftgtq, t);
    WaitersAppend(f.ctgtq, t);
  }

  lemma SameAccount(f: Fc, g: Fc, asked: multiset<Waiter>)
    requires Accounted(f, asked) && g.answered == f.answered && g.ftgtq == f.ftgtq && g.ctgtq == f.ctgtq
    ensures Accounted(g, asked)
  {
  }

  lemma ToldTask(w: Waiter)
    requires w.Task?
    ensures Told(w) == [w]
  {
  }

  lemma NobodyAsked(asked: multiset<Waiter>)
    ensures asked + multiset(Told(Nobody)) == asked
  {
  }

  lemma EnsureFlushAccounts(f: Fc, w: Waiter, full: bool, late: seq<Item>, asked: multiset<Waiter>)
    requires Accounted(f, asked)
    ensures Accounted(EnsureFlush(f, w, full, late), asked + multiset(Told(w)))
  {
    hide Sync, InsertAll, Contiguous, Accounted, Told;
    if f.running {
      if w == Nobody { NobodyAsked(asked); }
      AppendAccounts(f, Tgt(FlushGoal(f), w, full), asked);
    } else if FlushGoal(f) == f.flushed {
      AppendAccounts(f, Tgt(0, w, full), asked);
    } else {
      var g := f.(dirty := InsertAll(f.dirty, late));
      var h := if MustFlushAll(f, g, full) then g.(stable := true) else g;
      SameAccount(f, h, asked);
      SyncAccounts(h, Picked(h), asked);
      AppendAccounts(Sync(h, Picked(h)), Tgt(FlushGoal(f), w, false), asked);
    }
  }

  lemma EnsureCommitAccounts(f: Fc, w: Waiter, full: bool, mdeb: nat, late: seq<Item>, asked: multiset<Waiter>)
    requires Accounted(f, asked)
    ensures Accounted(EnsureCommit(f, w, full, mdeb, late), asked + multiset(Told(w)))
  {
    hide EnsureFlush, Accounted, Told;
    var goal := CommitGoal(f, full, mdeb);
    if CommitBytes(f, full, mdeb) == 0 || f.running {
      AppendAccounts(f, Tgt(goal, w, full), asked);
    } else if f.flushed < goal {
      EnsureFlushAccounts(f, Nobody, full, late, asked);
      NobodyAsked(asked);
      var g := EnsureFlush(f, Nobody, full, late);
      AppendAccounts(g, Tgt(goal, w, false), asked);
      EnsureFlushAccounts(g, w, false, [], asked);
    } else {
      SameAccount(f, StartCommit(f), asked);
      AppendAccounts(StartCommit(f), Tgt(goal, w, false), asked);
    }
  }

  lemma PopAccounts(f: Fc, asked: multiset<Waiter>)
    requires Accounted(f, asked)
    ensures Accounted(PopFlush(f), asked) && Accounted(PopCommit(f), asked)
  {
    WaitersSplit(f.ftgtq, Met(f.ftgtq, f.flushed));
    WaitersSplit(f.ctgtq, Met(f.ctgtq, f.committed));
  }

  lemma CleanUpAccounts(f: Fc, asked: multiset<Waiter>)
    requires Accounted(f, asked)
    ensures Accounted(CleanUp(f), asked)
  {
  }

  lemma HandlersAccount(f: Fc, asked: multiset<Waiter>)
    requires Accounted(f, asked)
    ensures Accounted(HandleFlush(f), asked) && Accounted(HandleCommit(f), asked)
  {
    hide Sync, Contiguous, Met, Accounted;
    PopAccounts(f, asked);
    var g, h := PopFlush(f), PopCommit(f);
    SyncAccounts(g, Picked(g), asked);
    SyncAccounts(h, Picked(h), asked);
    SameAccount(g, StartCommit(g), asked);
    SameAccount(g, g.(running := false), asked);
    SameAccount(h, h.(running := false), asked);
  }
}
