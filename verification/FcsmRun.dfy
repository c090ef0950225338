/**
  Runs of the flush-commit state machine: writers, callers of ensure_flush() and ensure_commit(),
  backend completions and their callbacks in any order.

  A call holds the flush lock and is one step.  A completion first updates the counters without the
  lock.  Its callback then returns if it finds more in flight, else it goes on to take the lock: these
  are steps of their own, and any number of callbacks may be between the two.
 */
module FcsmRun {
  import opened Chunks
  import opened Fcsm

  /** What a waiter asked for: everything not yet written when the call was made, and the round it was made in. */
  datatype Ask = Ask(round: nat, items: set<Item>)

  datatype Sys = Sys(
    f: Fc,
    cbs: nat,
    ccbs: nat,
    asked: multiset<Waiter>,
    asks: map<Waiter, Ask>,
    round: nat,
    written: set<Item>,
    nextId: nat)

  datatype Event =
    | Write(it: Item)
    | Flush(w: Waiter, late: seq<Item>)
    | Commit(w: Waiter, full: bool, mdeb: nat, late: seq<Item>)
    | Reply(w: Waiter)
    | FlushEnds(i: nat, j: nat)
    | CallbackReturns
    | FlushCallback
    | CommitEnds
    | CommitCallback
    | Cleanup

  ghost function Set(items: seq<Item>): set<Item> {
    set x | x in items
  }

  ghost predicate FreshItems(items: seq<Item>, id: nat) {
    forall k :: 0 <= k < |items| ==> items[k].id == id + k && 0 < items[k].length
  }

  ghost predicate FreshWaiter(s: Sys, w: Waiter) {
    w == Nobody || w !in s.asked
  }

  /** A commit is under way or its callback has yet to get the lock. */
  predicate CommitBusy(s: Sys) {
    s.f.commitInProgress || 0 < s.ccbs
  }

  /**
    Two guards are about commits only: no flush is asked for with nothing dirty while a commit is
    busy, and no flush callback runs between the end of a commit and its callback.
   */
  ghost predicate Enabled(s: Sys, ev: Event) {
    match ev
    case Write(it) => it.id == s.nextId && 0 < it.length
    case Flush(w, late) =>
      FreshWaiter(s, w) && FreshItems(late, s.nextId) && (CommitBusy(s) ==> s.f.dirty != [])
    case Commit(w, full, _, late) =>
      && FreshWaiter(s, w) && FreshItems(late, s.nextId) && !s.f.stable
      && (full ==> s.f.pending == [])
    case Reply(w) => FreshWaiter(s, w)
    case FlushEnds(i, j) => i < j <= |s.f.inflight|
    case CallbackReturns => 0 < s.cbs && s.f.inflight != []
    case FlushCallback => 0 < s.cbs && s.ccbs == 0
    case CommitEnds => s.f.commitInProgress
    case CommitCallback => 0 < s.ccbs
    // truncate_start() has waited till nothing is in flight, no flush callback runs and no commit is in progress.
    case Cleanup => s.f.inflight == [] && s.cbs == 0 && !s.f.commitInProgress
  }

  ghost function Asked(s: Sys, w: Waiter): Sys {
    s.(asked := s.asked + multiset(Told(w)))
  }

  ghost function Recorded(s: Sys, w: Waiter): Sys {
    if w == Nobody || !s.f.stable then s
    else s.(asks := s.asks[w := Ask(s.round, Set(s.f.dirty) + Set(s.f.inflight))])
  }

  ghost function Next(s: Sys, ev: Event): Sys
    requires Enabled(s, ev)
  {
    match ev
    case Write(it) => s.(f := Dirtied(s.f, it), nextId := s.nextId + 1)
    case Flush(w, late) =>
      Recorded(Asked(s, w), w).(f := EnsureFlush(s.f, w, false, late), nextId := s.nextId + |late|)
    case Commit(w, full, mdeb, late) =>
      Asked(s, w).(f := EnsureCommit(s.f, w, full, mdeb, late), nextId := s.nextId + |late|)
    case Reply(w) => Asked(s, w).(f := s.f.(answered := s.f.answered + Told(w)))
    case FlushEnds(i, j) =>
      s.(f := Complete(s.f, i, j), cbs := s.cbs + 1,
         written := if s.f.stable then s.written + Set(s.f.inflight[i..j]) else s.written)
    case CallbackReturns => s.(cbs := s.cbs - 1)
    case FlushCallback =>
      s.(f := HandleFlush(s.f), cbs := s.cbs - 1, round := if Handles(s.f) then s.round + 1 else s.round)
    case CommitEnds => s.(f := CommitReply(s.f), ccbs := s.ccbs + 1, written := s.written + Set(s.f.pending))
    case CommitCallback => s.(f := HandleCommit(s.f), ccbs := s.ccbs - 1)
    case Cleanup => s.(f := CleanUp(s.f))
  }

  // ---------------------------------------------------------------- control

  ghost predicate Control(s: Sys) {
    && Kept(s.f)
    && (s.ccbs == 0 ==> CommitAhead(s.f))
    && (0 < s.ccbs ==> s.ccbs == 1 && Handles(s.f) && s.f.committed == s.f.flushed && !s.f.stable)
    && (CommitBusy(s) ==> forall k :: 0 <= k < |s.f.ftgtq| ==> s.f.flushing < s.f.ftgtq[k].goal)
    && (CommitBusy(s) ==> s.f.ctgtq != [] && s.f.ctgtq[0].goal <= s.f.flushed)
    && (s.f.running ==> s.f.inflight != [] || 0 < s.cbs || CommitBusy(s))
  }

  lemma FreshPositive(items: seq<Item>, id: nat)
    requires FreshItems(items, id)
    ensures Positive(items)
  {
  }

  lemma FlushControl(s: Sys, ev: Event)
    requires Control(s) && Enabled(s, ev) && ev.Flush?
    ensures Control(Next(s, ev))
  {
    hide Kept, EnsureFlush;
    FreshPositive(ev.late, s.nextId);
    EnsureFlushKeeps(s.f, ev.w, false, ev.late);
    EnsureFlushShape(s.f, ev.w, false, ev.late);
    KeptFacts(s.f);
    BytesPositive(s.f.dirty);
  }

  /** ensure_flush() on a running machine only queues; on a stopped one it starts a flush or does nothing. */
  lemma EnsureFlushShape(f: Fc, w: Waiter, full: bool, late: seq<Item>)
    requires Kept(f) && Positive(late) && (full ==> f.pending == [])
    ensures var g := EnsureFlush(f, w, full, late);
            && g.committed == f.committed && (g.ctgtq == f.ctgtq || g.ctgtq == [])
            && g.commitInProgress == f.commitInProgress && g.flushed == f.flushed
            && (f.running ==>
                  && Unmoved(f, g) && g.ctgtq == f.ctgtq
                  && forall k :: 0 <= k < |g.ftgtq| ==> g.ftgtq[k] in f.ftgtq || g.ftgtq[k].goal == f.flushing + Bytes(f.dirty))
            && (!f.running && g.running ==> g.inflight != [])
            && (f.stable ==> g.stable)
  {
    hide Kept, InsertAll, Contiguous, Sync;
    FlushGoalIsLast(f);
    KeptFacts(f);
    if !f.running && FlushGoal(f) != f.flushed {
      LateKeeps(f, late);
      var g := f.(dirty := InsertAll(f.dirty, late));
      var h := if MustFlushAll(f, g, full) then g.(stable := true) else g;
      assert Kept(h) by { if MustFlushAll(f, g, full) { StableKeeps(g); } }
      SyncKeeps(h, Picked(h));
      SyncShape(h, Picked(h)) by { KeptFacts(h); }
    }
  }

  lemma CommitControl(s: Sys, ev: Event)
    requires Control(s) && Enabled(s, ev) && ev.Commit?
    ensures Control(Next(s, ev))
  {
    hide Kept, EnsureCommit;
    FreshPositive(ev.late, s.nextId);
    EnsureCommitKeeps(s.f, ev.w, ev.full, ev.mdeb, ev.late);
    EnsureCommitShape(s.f, ev.w, ev.full, ev.mdeb, ev.late);
    KeptFacts(s.f);
  }

  /** ensure_commit() on a running machine only queues; on a stopped one it starts a flush or a commit, or does nothing. */
  lemma EnsureCommitShape(f: Fc, w: Waiter, full: bool, mdeb: nat, late: seq<Item>)
    requires Kept(f) && !f.stable && Positive(late) && (full ==> f.pending == [])
    ensures var g := EnsureCommit(f, w, full, mdeb, late);
            && g.committed == f.committed && g.flushed == f.flushed
            && (CommitAhead(f) ==> CommitAhead(g))
            && (f.running ==> Unmoved(f, g) && g.ftgtq == f.ftgtq)
            && (f.running && f.ctgtq != [] ==> g.ctgtq != [] && g.ctgtq[0] == f.ctgtq[0])
            && (!f.running && g.running ==>
                  if g.commitInProgress then g.ftgtq == [] && g.ctgtq != [] && g.ctgtq[0].goal <= g.flushed
                  else g.inflight != [])
            && (!g.running ==> !g.commitInProgress)
  {
    hide Kept, EnsureFlush;
    KeptFacts(f);
    if CommitBytes(f, full, mdeb) == 0 {
      return;
    }
    CommitGoalAttainable(f, full, mdeb);
    if !f.running && f.flushed < CommitGoal(f, full, mdeb) {
      EnsureFlushShape(f, Nobody, full, late);
      EnsureFlushKeeps(f, Nobody, full, late);
      EnsureFlushGrows(f, Nobody, full, late);
      var g := EnsureFlush(f, Nobody, full, late);
      EnsureFlushShape(g, w, false, []) by { PendingGone(g); }
    }
  }

  lemma PendingGone(f: Fc)
    requires Kept(f)
    ensures f.stable ==> f.pending == [] && f.ctgtq == []
  {
  }

  lemma EndsControl(s: Sys, ev: Event)
    requires Control(s) && Enabled(s, ev) && (ev.FlushEnds? || ev.CommitEnds? || ev.Write? || ev.Reply? || ev.CallbackReturns? || ev.Cleanup?)
    ensures Control(Next(s, ev))
  {
    hide Bytes, InsertAll, Insert, Kept;
    KeptFacts(s.f);
    match ev
    case FlushEnds(i, j) =>
      CompleteKeeps(s.f, i, j);
      assert !CommitBusy(s) by { BusyIdle(s.f); }
    case CommitEnds =>
      CommitReplyKeeps(s.f);
      BusyIdle(s.f);
    case Write(it) => DirtiedKeeps(s.f, it);
    case Reply(w) => AnswerKeeps(s.f, w);
    case CallbackReturns =>
    case Cleanup => CleanUpKeeps(s.f);
  }

  lemma BusyIdle(f: Fc)
    requires Kept(f)
    ensures f.commitInProgress ==> f.inflight == [] && f.running && !f.stable
  {
  }

  lemma CallbackControl(s: Sys, ev: Event)
    requires Control(s) && Enabled(s, ev) && (ev.FlushCallback? || ev.CommitCallback?)
    ensures Control(Next(s, ev))
  {
    hide Kept, HandleFlush, HandleCommit, PopFlush, PopCommit;
    match ev
    case FlushCallback =>
      if Handles(s.f) {
        HandleFlushKeeps(s.f);
        PopFlushKeeps(s.f);
        if HandleFlush(s.f).commitInProgress { FlushCallbackGoals(s.f); }
      } else {
        NotHandled(s.f);
        BusyIdle(s.f);
      }
    case CommitCallback =>
      HandleCommitKeeps(s.f);
      KeptFacts(s.f);
      GoalAboveNeedsDirty(s.f);
  }

  lemma NotHandled(f: Fc)
    requires !Handles(f)
    ensures HandleFlush(f) == f
  {
  }

  lemma FlushCallbackGoals(f: Fc)
    requires Kept(f) && CommitAhead(f) && Handles(f) && HandleFlush(f).commitInProgress
    ensures forall k :: 0 <= k < |HandleFlush(f).ftgtq| ==> HandleFlush(f).flushing < HandleFlush(f).ftgtq[k].goal
  {
    hide Kept, HandleFlush, PopFlush;
    HandleFlushKeeps(f);
    PopFlushKeeps(f);
  }

  lemma GoalAboveNeedsDirty(f: Fc)
    requires Kept(f) && forall k :: 0 <= k < |f.ftgtq| ==> f.flushing < f.ftgtq[k].goal
    ensures f.ftgtq != [] ==> f.dirty != []
  {
    if f.ftgtq != [] { GoalNeedsDirty(f); }
  }

  lemma StepControl(s: Sys, ev: Event)
    requires Control(s) && Enabled(s, ev)
    ensures Control(Next(s, ev))
  {
    hide Control;
    match ev
    case Flush(_, _) => FlushControl(s, ev);
    case Commit(_, _, _, _) => CommitControl(s, ev);
    case FlushCallback => CallbackControl(s, ev);
    case CommitCallback => CallbackControl(s, ev);
    case _ => EndsControl(s, ev);
  }

  // ---------------------------------------------------------------- waiters

  /** A waiter is asked for once at most. */
  ghost predicate Waiting(s: Sys) {
    && Accounted(s.f, s.asked)
    && forall w :: s.asked[w] <= 1
  }

  lemma AskedOnce(s: Sys, w: Waiter)
    requires (forall v :: s.asked[v] <= 1) && FreshWaiter(s, w)
    ensures forall v :: (s.asked + multiset(Told(w)))[v] <= 1
  {
  }

  lemma StepWaiting(s: Sys, ev: Event)
    requires Waiting(s) && Enabled(s, ev)
    ensures Waiting(Next(s, ev))
  {
    hide Accounted, HandleFlush, HandleCommit, EnsureFlush, EnsureCommit, Told, FreshItems, Dirtied, Complete;
    match ev
    case Flush(w, late) =>
      AskedOnce(s, w);
      EnsureFlushAccounts(s.f, w, false, late, s.asked);
    case Commit(w, full, mdeb, late) =>
      AskedOnce(s, w);
      EnsureCommitAccounts(s.f, w, full, mdeb, late, s.asked);
    case Reply(w) =>
      AskedOnce(s, w);
      AppendAccounts(s.f, Tgt(0, w, false), s.asked);
    case FlushCallback => HandlersAccount(s.f, s.asked);
    case CommitCallback => HandlersAccount(s.f, s.asked);
    case Write(it) => DirtiedAccounts(s.f, it, s.asked);
    case FlushEnds(i, j) => CompleteAccounts(s.f, i, j, s.asked);
    case CommitEnds => SameAccount(s.f, CommitReply(s.f), s.asked);
    case CallbackReturns =>
    case Cleanup => CleanUpAccounts(s.f, s.asked);
  }

  lemma DirtiedAccounts(f: Fc, it: Item, asked: multiset<Waiter>)
    requires Accounted(f, asked)
    ensures Accounted(Dirtied(f, it), asked)
  {
    hide Accounted;
    SameAccount(f, Dirtied(f, it), asked);
  }

  lemma CompleteAccounts(f: Fc, i: nat, j: nat, asked: multiset<Waiter>)
    requires Accounted(f, asked) && i <= j <= |f.inflight|
    ensures Accounted(Complete(f, i, j), asked)
  {
    hide Accounted;
    SameAccount(f, Complete(f, i, j), asked);
  }

  // ---------------------------------------------------------------- items

  ghost function Live(f: Fc): multiset<Item> {
    multiset(f.dirty) + multiset(f.inflight) + multiset(f.pending)
  }

  /** An item is in one place, and either still to be written or written. */
  ghost predicate OnePlace(s: Sys) {
    && (forall x :: Live(s.f)[x] <= 1)
    && (forall x :: x in Live(s.f) ==> x !in s.written && x.id < s.nextId)
    && (forall x :: x in s.written ==> x.id < s.nextId)
  }

  lemma SyncLive(f: Fc, n: nat)
    requires n <= |f.dirty|
    ensures Live(Sync(f, n)) == Live(f)
  {
    hide InsertAll, Bytes;
    InsertAllBytes(f.dirty[n..], f.pending);
    assert f.dirty == f.dirty[..n] + f.dirty[n..];
    SendBag(multiset(f.dirty[..n]), multiset(f.dirty[n..]), multiset(f.inflight), multiset(f.pending));
  }

  lemma SendBag(out: multiset<Item>, rest: multiset<Item>, a: multiset<Item>, p: multiset<Item>)
    ensures rest + (a + out) + p == (out + rest) + a + p && (rest + p) + (a + out) + multiset{} == (out + rest) + a + p
  {
  }

  lemma EnsureFlushLive(f: Fc, w: Waiter, full: bool, late: seq<Item>)
    ensures var g := EnsureFlush(f, w, full, late); Live(g) == Live(f) || Live(g) == Live(f) + multiset(late)
  {
    hide InsertAll, Sync, Contiguous;
    if !f.running && FlushGoal(f) != f.flushed {
      InsertAllBytes(f.dirty, late);
      var g := f.(dirty := InsertAll(f.dirty, late));
      var h := if MustFlushAll(f, g, full) then g.(stable := true) else g;
      SyncLive(h, Picked(h));
    }
  }

  lemma EnsureCommitLive(f: Fc, w: Waiter, full: bool, mdeb: nat, late: seq<Item>)
    ensures var g := EnsureCommit(f, w, full, mdeb, late); Live(g) == Live(f) || Live(g) == Live(f) + multiset(late)
  {
    hide EnsureFlush, Live;
    EnsureFlushLive(f, Nobody, full, late);
    var g := EnsureFlush(f, Nobody, full, late);
    EnsureFlushLive(g, w, false, []);
    assert Live(g) + multiset([]) == Live(g);
    SameLive(f, EnsureCommit(f, w, full, mdeb, late));
    SameLive(g, EnsureCommit(f, w, full, mdeb, late));
  }

  lemma SameLive(f: Fc, g: Fc)
    ensures g.dirty == f.dirty && g.inflight == f.inflight && g.pending == f.pending ==> Live(g) == Live(f)
  {
  }

  lemma HandlersLive(f: Fc)
    ensures Live(HandleFlush(f)) == Live(f) && Live(HandleCommit(f)) == Live(f)
  {
    hide Sync, Contiguous, Live, Met;
    var g, h := PopFlush(f), PopCommit(f);
    SyncLive(g, Picked(g));
    SyncLive(h, Picked(h));
    SameLive(f, g);
    SameLive(f, h);
    SameLive(f, HandleFlush(f));
    SameLive(f, HandleCommit(f));
  }

  lemma CompleteLive(f: Fc, i: nat, j: nat)
    requires i <= j <= |f.inflight|
    ensures var out := multiset(f.inflight[i..j]);
            && Live(Complete(f, i, j)) == (if f.stable then Live(f) - out else Live(f))
            && out <= Live(f)
  {
    hide InsertAll, Bytes;
    InsertAllBytes(f.pending, f.inflight[i..j]);
    CutBag(f.inflight, i, j);
    MoveBag(multiset(f.dirty), multiset(f.inflight), multiset(f.inflight[i..j]),
            multiset(f.inflight[..i] + f.inflight[j..]), multiset(f.pending));
  }

  lemma CutBag(a: seq<Item>, i: nat, j: nat)
    requires i <= j <= |a|
    ensures multiset(a) == multiset(a[i..j]) + multiset(a[..i] + a[j..])
  {
    assert a == a[..i] + a[i..j] + a[j..];
  }

  lemma MoveBag(d: multiset<Item>, a: multiset<Item>, out: multiset<Item>, rest: multiset<Item>, p: multiset<Item>)
    requires a == out + rest
    ensures d + rest + (p + out) == d + a + p && d + rest + p == (d + a + p) - out && out <= d + a + p
  {
  }

  lemma {:induction false} FreshOnce(items: seq<Item>, id: nat, x: Item)
    requires FreshItems(items, id)
    ensures multiset(items)[x] <= 1
    ensures x in items ==> id <= x.id < id + |items|
  {
    if items != [] {
      var n := |items| - 1;
      FreshOnce(items[..n], id, x);
      assert items == items[..n] + [items[n]];
    }
  }

  lemma AddOnePlace(s: Sys, s': Sys, late: seq<Item>)
    requires OnePlace(s) && FreshItems(late, s.nextId) && s'.nextId == s.nextId + |late| && s'.written == s.written
    requires Live(s'.f) == Live(s.f) || Live(s'.f) == Live(s.f) + multiset(late)
    ensures OnePlace(s')
  {
    hide Live;
    forall x ensures multiset(late)[x] <= 1 && (x in multiset(late) ==> s.nextId <= x.id < s'.nextId) {
      FreshOnce(late, s.nextId, x);
    }
  }

  lemma WroteOnePlace(s: Sys, s': Sys, out: seq<Item>)
    requires OnePlace(s) && s'.nextId == s.nextId && s'.written == s.written + Set(out)
    requires multiset(out) <= Live(s.f) && Live(s'.f) == Live(s.f) - multiset(out)
    ensures OnePlace(s')
  {
    hide Live;
    forall x | x in out ensures x in Live(s.f) && x !in Live(s'.f) {
      assert x in multiset(out);
    }
  }

  lemma StepOnePlace(s: Sys, ev: Event)
    requires OnePlace(s) && Enabled(s, ev)
    ensures OnePlace(Next(s, ev))
  {
    hide EnsureFlush, EnsureCommit, HandleFlush, HandleCommit, Insert, InsertAll, OnePlace, Live;
    var s' := Next(s, ev);
    match ev
    case Write(it) =>
      assert FreshItems([it], s.nextId);
      assert Live(s'.f) == Live(s.f) + multiset([it]) by { DirtiedLive(s.f, it); }
      AddOnePlace(s, s', [it]);
    case Flush(w, late) =>
      EnsureFlushLive(s.f, w, false, late);
      AddOnePlace(s, s', late);
    case Commit(w, full, mdeb, late) =>
      EnsureCommitLive(s.f, w, full, mdeb, late);
      AddOnePlace(s, s', late);
    case Reply(w) =>
      SameLive(s.f, s'.f);
      AddOnePlace(s, s', []);
    case CallbackReturns => AddOnePlace(s, s', []);
    case Cleanup =>
      SameLive(s.f, s'.f);
      AddOnePlace(s, s', []);
    case FlushEnds(i, j) =>
      CompleteLive(s.f, i, j);
      if s.f.stable {
        WroteOnePlace(s, s', s.f.inflight[i..j]);
      } else {
        AddOnePlace(s, s', []);
      }
    case CommitEnds =>
      CommitLive(s.f);
      WroteOnePlace(s, s', s.f.pending);
    case _ =>
      HandlersLive(s.f);
      AddOnePlace(s, s', []);
  }

  lemma DirtiedLive(f: Fc, it: Item)
    ensures Live(Dirtied(f, it)) == Live(f) + multiset([it])
  {
    hide Insert;
    InsertBytes(f.dirty, it);
  }

  lemma CommitLive(f: Fc)
    ensures multiset(f.pending) <= Live(f) && Live(CommitReply(f)) == Live(f) - multiset(f.pending)
  {
  }

  // ---------------------------------------------------------------- what a flush promises

  ghost predicate AskOk(s: Sys, w: Waiter, a: Ask) {
    && a.items <= s.written + Set(s.f.dirty) + Set(s.f.inflight)
    && (w in s.f.answered ==> a.items <= s.written)
    && forall k :: 0 <= k < |s.f.ftgtq| && s.f.ftgtq[k].waiter == w ==> TargetOk(s, s.f.ftgtq[k], a)
  }

  /** Once its flush is started nothing it waits for is left behind, and it is started by the next round. */
  ghost predicate TargetOk(s: Sys, t: Tgt, a: Ask) {
    && (t.goal <= s.f.flushing ==> a.items <= s.written + Set(s.f.inflight))
    && (s.round == a.round || (s.round == a.round + 1 && t.goal <= s.f.flushing))
  }

  ghost predicate AsksOk(s: Sys) {
    && (forall w :: w in s.asks ==> w in s.asked && w != Nobody && AskOk(s, w, s.asks[w]))
    && (s.asks != map[] ==> s.f.stable)
  }

  /** Nothing an ask refers to has changed, except that more is dirty or more is written. */
  lemma AskKept(s: Sys, s': Sys, w: Waiter, a: Ask)
    requires AskOk(s, w, a) && s'.round == s.round && s'.f.flushing == s.f.flushing
    requires s.written + Set(s.f.inflight) <= s'.written + Set(s'.f.inflight) && s.written <= s'.written
    requires Set(s.f.dirty) <= Set(s'.f.dirty)
    requires w in s'.f.answered ==> w in s.f.answered
    requires forall t :: t in s'.f.ftgtq && t.waiter == w ==> t in s.f.ftgtq
    ensures AskOk(s', w, a)
  {
  }

  lemma InsertSet(items: seq<Item>, it: Item)
    ensures Set(Insert(items, it)) == Set(items) + {it}
  {
    InsertBytes(items, it);
    forall x ensures x in Insert(items, it) <==> x in items || x == it {
      assert x in Insert(items, it) <==> x in multiset(Insert(items, it));
      assert x in items <==> x in multiset(items);
    }
  }

  lemma CompleteSet(f: Fc, i: nat, j: nat)
    requires i <= j <= |f.inflight|
    ensures Set(f.inflight) == Set(f.inflight[i..j]) + Set(f.inflight[..i] + f.inflight[j..])
  {
    assert f.inflight == f.inflight[..i] + f.inflight[i..j] + f.inflight[j..];
  }

  lemma SimpleAsks(s: Sys, ev: Event)
    requires Control(s) && AsksOk(s) && Enabled(s, ev) && (ev.Write? || ev.Reply? || ev.FlushEnds? || ev.CallbackReturns?)
    ensures AsksOk(Next(s, ev))
  {
    hide Control, Insert, InsertAll, Bytes, AskOk;
    var s' := Next(s, ev);
    if ev.Write? { InsertSet(s.f.dirty, ev.it); }
    if ev.FlushEnds? { CompleteSet(s.f, ev.i, ev.j); }
    forall w | w in s'.asks ensures AskOk(s', w, s'.asks[w]) {
      AskKept(s, s', w, s.asks[w]);
    }
  }

  /** With stable writes a flush takes everything that is dirty. */
  lemma SyncEverything(f: Fc)
    requires f.stable && f.inflight == [] && f.dirty != []
    ensures var h := Sync(f, |f.dirty|);
            && h.stable && h.ftgtq == f.ftgtq && h.answered == f.answered
            && h.dirty == [] && h.inflight == f.dirty && h.flushing == f.flushing + Bytes(f.dirty)
  {
    hide InsertAll, Bytes;
    assert f.dirty[..|f.dirty|] == f.dirty;
    assert [] + f.dirty == f.dirty;
  }

  lemma StableKickIsSync(f: Fc, w: Waiter, late: seq<Item>)
    requires f.stable && !f.running && FlushGoal(f) != f.flushed
    ensures var g := f.(dirty := InsertAll(f.dirty, late));
            var s := Sync(g, |g.dirty|);
            EnsureFlush(f, w, false, late) == s.(ftgtq := s.ftgtq + [Tgt(FlushGoal(f), w, false)])
  {
    hide InsertAll, Sync, FlushGoal, Contiguous;
  }

  /** ensure_flush() with stable writes on a stopped machine sends out everything dirty. */
  lemma StableKick(f: Fc, w: Waiter, late: seq<Item>)
    requires Kept(f) && f.stable && !f.running && f.dirty != [] && Positive(late)
    ensures var g := EnsureFlush(f, w, false, late);
            && g.stable && g.dirty == [] && g.inflight == InsertAll(f.dirty, late) && g.answered == f.answered
            && g.ftgtq == [Tgt(f.flushing + Bytes(f.dirty), w, false)]
            && g.flushing == f.flushing + Bytes(f.dirty) + Bytes(late)
  {
    hide InsertAll, Sync, Kept, EnsureFlush, Positive;
    FlushGoalIsLast(f);
    KeptFacts(f);
    BytesPositive(f.dirty);
    LateKeeps(f, late);
    StableKickIsSync(f, w, late);
    SyncEverything(f.(dirty := InsertAll(f.dirty, late)));
  }

  lemma InsertAllSet(a: seq<Item>, b: seq<Item>)
    ensures Set(a) <= Set(InsertAll(a, b))
  {
    InsertAllBytes(a, b);
    forall x | x in a ensures x in InsertAll(a, b) {
      assert x in multiset(a);
      assert x in multiset(InsertAll(a, b));
    }
  }

  lemma FlushAsks(s: Sys, ev: Event)
    requires Control(s) && Waiting(s) && AsksOk(s) && Enabled(s, ev) && ev.Flush? && s.f.stable
    ensures AsksOk(Next(s, ev))
  {
    hide Kept, EnsureFlush, InsertAll, AskOk, Control, Accounted;
    var s', w := Next(s, ev), ev.w;
    ControlKept(s);
    assert s'.f.stable by { StableStays(s.f, w, ev.late, s.nextId); }
    assert Flushes(s, s', w, ev.late);
    forall v | v in s'.asks ensures v in s'.asked && v != Nobody && AskOk(s', v, s'.asks[v]) {
      if v in s.asks && v != w {
        OthersFlush(s, s', w, ev.late, v);
      } else {
        assert v == w && v in multiset(Told(w));
        OwnFlush(s, s', w, ev.late);
      }
    }
  }

  lemma ControlKept(s: Sys)
    requires Control(s)
    ensures Kept(s.f)
  {
  }

  lemma StableStays(f: Fc, w: Waiter, late: seq<Item>, id: nat)
    requires Kept(f) && f.stable && FreshItems(late, id)
    ensures EnsureFlush(f, w, false, late).stable
  {
    FreshPositive(late, id);
    EnsureFlushShape(f, w, false, late);
  }

  /** The state after the call, as far as asks see it. */
  ghost predicate Flushes(s: Sys, s': Sys, w: Waiter, late: seq<Item>) {
    && Control(s) && s.f.stable && FreshItems(late, s.nextId) && s'.f == EnsureFlush(s.f, w, false, late)
    && s'.written == s.written && s'.round == s.round
  }

  lemma OthersFlush(s: Sys, s': Sys, w: Waiter, late: seq<Item>, v: Waiter)
    requires Flushes(s, s', w, late) && v in s.asks && AskOk(s, v, s.asks[v]) && v != w
    ensures AskOk(s', v, s.asks[v])
  {
    hide Kept, InsertAll, Sync;
    FreshPositive(late, s.nextId);
    KeptFacts(s.f);
    if !s.f.running && FlushGoal(s.f) != s.f.flushed {
      FlushGoalIsLast(s.f);
      StableKick(s.f, w, late);
      InsertAllSet(s.f.dirty, late);
    } else {
      AskKept(s, s', v, s.asks[v]);
    }
  }

  lemma OwnFlush(s: Sys, s': Sys, w: Waiter, late: seq<Item>)
    requires Flushes(s, s', w, late) && w != Nobody && Accounted(s.f, s.asked) && w !in s.asked
    ensures AskOk(s', w, Ask(s.round, Set(s.f.dirty) + Set(s.f.inflight)))
  {
    hide Kept, InsertAll, Sync;
    FreshPositive(late, s.nextId);
    KeptFacts(s.f);
    FlushGoalIsLast(s.f);
    NotWaiting(s.f, s.asked, w);
    BytesPositive(s.f.dirty);
    if !s.f.running && FlushGoal(s.f) != s.f.flushed {
      StableKick(s.f, w, late);
      InsertAllSet(s.f.dirty, late);
    }
  }

  /** A waiter nobody asked for is neither told nor in a queue. */
  lemma NotWaiting(f: Fc, asked: multiset<Waiter>, w: Waiter)
    requires Accounted(f, asked) && w !in asked && w != Nobody
    ensures w !in f.answered && forall k :: 0 <= k < |f.ftgtq| ==> f.ftgtq[k].waiter != w
  {
    assert w !in multiset(f.answered) && w !in multiset(Waiters(f.ftgtq));
    forall k | 0 <= k < |f.ftgtq| ensures f.ftgtq[k].waiter != w {
      WaiterListed(f.ftgtq, k);
    }
  }

  lemma {:induction false} WaiterListed(q: seq<Tgt>, k: nat)
    requires k < |q|
    ensures q[k].waiter == Nobody || q[k].waiter in Waiters(q)
  {
    if 0 < k {
      WaiterListed(q[1..], k - 1);
    }
  }

  lemma {:induction false} ListedWaiter(q: seq<Tgt>, w: Waiter)
    requires w in Waiters(q)
    ensures exists k :: 0 <= k < |q| && q[k].waiter == w
  {
    if w != q[0].waiter {
      ListedWaiter(q[1..], w);
      var k :| 0 <= k < |q[1..]| && q[1..][k].waiter == w;
      assert q[k + 1].waiter == w;
    }
  }

  lemma {:induction false} MetAll(q: seq<Tgt>, n: nat, i: nat)
    requires i < Met(q, n)
    ensures q[i].goal <= n
  {
    if 0 < i { MetAll(q[1..], n, i - 1); }
  }

  /** Whoever the end of a round tells has all that it asked for written. */
  lemma ToldIsWritten(s: Sys, v: Waiter, a: Ask)
    requires Kept(s.f) && Handles(s.f) && AskOk(s, v, a) && v in PopFlush(s.f).answered
    ensures a.items <= s.written
  {
    KeptFacts(s.f);
    var k := Met(s.f.ftgtq, s.f.flushed);
    if v in Waiters(s.f.ftgtq[..k]) {
      ListedWaiter(s.f.ftgtq[..k], v);
      var i :| 0 <= i < k && s.f.ftgtq[..k][i].waiter == v;
      MetAll(s.f.ftgtq, s.f.flushed, i);
      assert TargetOk(s, s.f.ftgtq[i], a);
    }
  }

  /** With stable writes the end of a round tells those that are done and, if any are left, flushes everything. */
  lemma RoundCases(f: Fc)
    requires Kept(f) && f.stable && Handles(f)
    ensures var g := PopFlush(f);
            HandleFlush(f) == if g.ftgtq == [] then g.(running := false) else Sync(g, |g.dirty|)
  {
    hide Kept, Sync, PopFlush, PopCommit, Contiguous;
    PopFlushKeeps(f);
    PendingGone(f);
    KeptFacts(f);
  }

  /** The state after the end of a round with stable writes. */
  lemma StableRound(f: Fc)
    requires Kept(f) && f.stable && Handles(f)
    ensures var g, h := PopFlush(f), HandleFlush(f);
            && h.stable && h.ftgtq == g.ftgtq && h.answered == g.answered
            && (h.dirty == f.dirty || h.inflight == f.dirty)
            && (g.ftgtq != [] ==> h.inflight == f.dirty && h.flushing == f.flushing + Bytes(f.dirty))
  {
    hide Kept, Sync, PopFlush, PopCommit, HandleFlush;
    RoundCases(f);
    PopFlushKeeps(f);
    KeptFacts(f);
    var g := PopFlush(f);
    if g.ftgtq != [] {
      GoalNeedsDirty(g);
      SyncEverything(g);
    }
  }

  lemma RoundTarget(s: Sys, a: Ask, k: nat)
    requires Kept(s.f) && s.f.stable && Handles(s.f) && k < |PopFlush(s.f).ftgtq|
    requires a.items <= s.written + Set(s.f.dirty) + Set(s.f.inflight) && TargetOk(s, PopFlush(s.f).ftgtq[k], a)
    ensures var s' := s.(f := HandleFlush(s.f), round := s.round + 1); TargetOk(s', PopFlush(s.f).ftgtq[k], a)
  {
    hide Kept, HandleFlush, PopFlush;
    StableRound(s.f);
    KeptFacts(s.f);
    PopFlushKeeps(s.f);
    GoalReached(s.f, k);
  }

  lemma RoundAsk(s: Sys, v: Waiter, a: Ask)
    requires Kept(s.f) && s.f.stable && Handles(s.f) && AskOk(s, v, a)
    ensures AskOk(s.(f := HandleFlush(s.f), round := s.round + 1), v, a)
  {
    hide Kept, HandleFlush, Met, TargetOk;
    var s' := s.(f := HandleFlush(s.f), round := s.round + 1);
    StableRound(s.f);
    if v in s'.f.answered { ToldIsWritten(s, v, a); }
    forall k | 0 <= k < |s'.f.ftgtq| && s'.f.ftgtq[k].waiter == v ensures TargetOk(s', s'.f.ftgtq[k], a) {
      var t := s'.f.ftgtq[k];
      assert t == s.f.ftgtq[Met(s.f.ftgtq, s.f.flushed) + k];
      RoundTarget(s, a, k);
    }
  }

  lemma GoalReached(f: Fc, k: nat)
    requires Kept(f) && k < |PopFlush(f).ftgtq|
    ensures PopFlush(f).ftgtq[k].goal <= f.flushing + Bytes(f.dirty)
  {
    PopFlushKeeps(f);
  }

  lemma StepAsks(s: Sys, ev: Event)
    requires Control(s) && Waiting(s) && AsksOk(s) && Enabled(s, ev)
    ensures AsksOk(Next(s, ev))
  {
    hide Kept, HandleFlush, HandleCommit, EnsureFlush, EnsureCommit, InsertAll, Insert, AskOk, Accounted;
    match ev
    case Flush(_, _) => if s.f.stable { FlushAsks(s, ev); }
    case FlushCallback =>
      var s' := Next(s, ev);
      if s.f.stable {
        PendingGone(s.f);
        if Handles(s.f) {
          StableRound(s.f);
        } else {
          NotHandled(s.f);
        }
        forall v | v in s.asks ensures AskOk(s', v, s.asks[v]) {
          if Handles(s.f) {
            RoundAsk(s, v, s.asks[v]);
            SameAsk(s.(f := HandleFlush(s.f), round := s.round + 1), s', v, s.asks[v]);
          } else {
            SameAsk(s, s', v, s.asks[v]);
          }
        }
      }
    case CommitEnds => BusyIdle(s.f);
    case Commit(_, _, _, _) =>
    case CommitCallback =>
    case Cleanup => CleanupAsks(s);
    case _ => SimpleAsks(s, ev);
  }

  /** Where writes are stable the clean-up before a truncate finds no flush target to tell. */
  lemma CleanupFindsNothing(s: Sys)
    requires Control(s) && Enabled(s, Cleanup) && s.f.stable
    ensures s.f.ftgtq == [] && CleanUp(s.f) == s.f
  {
    KeptFacts(s.f);
    assert s.f.answered + Waiters([]) == s.f.answered;
  }

  lemma CleanupAsks(s: Sys)
    requires Control(s) && AsksOk(s) && Enabled(s, Cleanup)
    ensures AsksOk(Next(s, Cleanup))
  {
    if s.f.stable { CleanupFindsNothing(s); }
  }

  lemma SameAsk(s: Sys, s': Sys, v: Waiter, a: Ask)
    requires AskOk(s, v, a) && s'.f == s.f && s'.round == s.round && s'.written == s.written
    ensures AskOk(s', v, a)
  {
  }

  // ---------------------------------------------------------------- whole runs

  ghost predicate Inv(s: Sys) {
    Control(s) && Waiting(s) && OnePlace(s) && AsksOk(s)
  }

  /** A file just opened: nothing dirty, nothing under way. */
  ghost predicate Initial(s: Sys) {
    && s.f == Fc(0, 0, 0, 0, false, [], [], s.f.stable, s.f.appendAt, false, [], [], [], [])
    && s.cbs == 0 && s.ccbs == 0 && s.asked == multiset{} && s.asks == map[] && s.written == {}
  }

  ghost predicate Run(ss: seq<Sys>, evs: seq<Event>) {
    && |ss| == |evs| + 1 && Initial(ss[0])
    && forall k :: 0 <= k < |evs| ==> Enabled(ss[k], evs[k]) && ss[k + 1] == Next(ss[k], evs[k])
  }

  /** Every state of every run. */
  lemma {:induction false} RunInv(ss: seq<Sys>, evs: seq<Event>, n: nat)
    requires Run(ss, evs) && n <= |evs|
    ensures Inv(ss[n])
  {
    hide Control, Waiting, OnePlace, AsksOk, Next, Enabled;
    if n == 0 {
      InitialInv(ss[0]);
    } else {
      RunInv(ss, evs, n - 1);
      var s, ev := ss[n - 1], evs[n - 1];
      assert Enabled(s, ev) && ss[n - 1 + 1] == Next(s, ev);
      StepControl(s, ev);
      StepWaiting(s, ev);
      StepOnePlace(s, ev);
      StepAsks(s, ev);
    }
  }

  lemma InitialInv(s: Sys)
    requires Initial(s)
    ensures Inv(s)
  {
  }

  /**
    In every state of every run: the bytes in flight are those between flushed_seq_num and
    flushing_seq_num; a stopped machine has empty queues and nothing under way; a running one has a
    write, a commit or a callback under way that will drive it on.
   */
  lemma NothingForgotten(ss: seq<Sys>, evs: seq<Event>, n: nat)
    requires Run(ss, evs) && n <= |evs|
    ensures var s := ss[n];
            && s.f.flushing - s.f.flushed == Bytes(s.f.inflight)
            && (!s.f.running ==> && s.f.ftgtq == [] && s.f.ctgtq == [] && s.f.inflight == [] && !s.f.commitInProgress
                                 && s.f.flushed == s.f.flushing && s.f.committed == s.f.committing)
            && (s.f.running ==> s.f.inflight != [] || 0 < s.cbs || s.f.commitInProgress || 0 < s.ccbs)
  {
    RunInv(ss, evs, n);
  }

  /** Flushing what is dirty now reaches every goal in either queue, and the flush queue is in order. */
  lemma GoalsAttainable(ss: seq<Sys>, evs: seq<Event>, n: nat)
    requires Run(ss, evs) && n <= |evs|
    ensures var f := ss[n].f;
            && (forall k :: 0 <= k < |f.ftgtq| ==> f.ftgtq[k].goal <= f.flushing + Bytes(f.dirty))
            && (forall k :: 0 <= k < |f.ctgtq| ==> f.ctgtq[k].goal <= f.flushing + Bytes(f.dirty))
            && (forall i, j :: 0 <= i < j < |f.ftgtq| ==> f.ftgtq[i].goal <= f.ftgtq[j].goal)
  {
    RunInv(ss, evs, n);
  }

  /** A flush callback that gets past the tests goes on in one of three ways and never gets stuck. */
  lemma CallbackGoesOn(ss: seq<Sys>, evs: seq<Event>, n: nat)
    requires Run(ss, evs) && n < |evs| && evs[n].FlushCallback? && Handles(ss[n].f)
    ensures ss[n].f.flushed == ss[n].f.flushing
    ensures Continues(PopFlush(ss[n].f), ss[n + 1].f)
  {
    RunInv(ss, evs, n);
    assert Enabled(ss[n], evs[n]);
    HandleFlushKeeps(ss[n].f);
  }

  /** Each waiter is in one queue once or has been told once; a stopped machine has told everyone. */
  lemma ToldExactlyOnce(ss: seq<Sys>, evs: seq<Event>, n: nat, w: Waiter)
    requires Run(ss, evs) && n <= |evs| && w in ss[n].asked
    ensures var f := ss[n].f;
            && multiset(f.answered)[w] + multiset(Waiters(f.ftgtq))[w] + multiset(Waiters(f.ctgtq))[w] == 1
            && (!f.running ==> multiset(f.answered)[w] == 1)
  {
    RunInv(ss, evs, n);
    var f := ss[n].f;
    assert (multiset(f.answered) + multiset(Waiters(f.ftgtq)) + multiset(Waiters(f.ctgtq)))[w] == ss[n].asked[w];
    if !f.running { KeptFacts(f); }
  }

  /**
    While writes are unstable: what is flushed and not committed is commit pending, and the first
    commit target is not reached yet, so a commit that is started has data; when it ends, everything
    flushed is committed.
   */
  lemma UnstableCommits(ss: seq<Sys>, evs: seq<Event>, n: nat)
    requires Run(ss, evs) && n < |evs| && !ss[n].f.stable
    ensures var s, s' := ss[n], ss[n + 1];
            && s.f.flushed == s.f.committed + Bytes(s.f.pending)
            && (s.ccbs == 0 && s.f.ctgtq != [] ==> s.f.committed < s.f.ctgtq[0].goal)
            && (!s.f.commitInProgress && s'.f.commitInProgress ==> 0 < Bytes(s'.f.pending))
            && (s.f.commitInProgress && !s'.f.commitInProgress ==>
                  s'.f.flushing == s'.f.flushed == s'.f.committing == s'.f.committed)
  {
    hide Next;
    RunInv(ss, evs, n);
    RunInv(ss, evs, n + 1);
    var s, s' := ss[n], ss[n + 1];
    assert Enabled(s, evs[n]) && s' == Next(s, evs[n]);
    if s'.f.commitInProgress { BytesPositive(s'.f.pending); }
    if s.f.commitInProgress && !s'.f.commitInProgress {
      CommitOnlyEnds(s, evs[n]);
      CommitReplyKeeps(s.f);
    }
  }

  /** Nothing but its reply ends a commit. */
  lemma CommitOnlyEnds(s: Sys, ev: Event)
    requires Control(s) && Enabled(s, ev) && s.f.commitInProgress && !Next(s, ev).f.commitInProgress
    ensures ev.CommitEnds? && Next(s, ev).f == CommitReply(s.f)
  {
    hide Kept, EnsureFlush, EnsureCommit, HandleCommit;
    BusyIdle(s.f);
    match ev
    case Flush(w, late) =>
      FreshPositive(late, s.nextId);
      EnsureFlushShape(s.f, w, false, late);
    case Commit(w, full, mdeb, late) =>
      FreshPositive(late, s.nextId);
      EnsureCommitShape(s.f, w, full, mdeb, late);
    case _ =>
  }

  lemma {:induction false} AskStays(ss: seq<Sys>, evs: seq<Event>, n: nat, m: nat, w: Waiter)
    requires Run(ss, evs) && n <= m <= |evs| && w in ss[n].asks
    ensures w in ss[m].asks && ss[m].asks[w] == ss[n].asks[w]
    decreases m - n
  {
    hide Next, Enabled, Inv;
    if n < m {
      AskStays(ss, evs, n, m - 1, w);
      RunInv(ss, evs, m - 1);
      assert Enabled(ss[m - 1], evs[m - 1]) && ss[m - 1 + 1] == Next(ss[m - 1], evs[m - 1]);
      AskIsAsked(ss[m - 1], w);
      AskStep(ss[m - 1], evs[m - 1], w);
    }
  }

  lemma AskStep(s: Sys, ev: Event, w: Waiter)
    requires Enabled(s, ev) && w in s.asks && w in s.asked && w != Nobody
    ensures w in Next(s, ev).asks && Next(s, ev).asks[w] == s.asks[w]
  {
    hide EnsureFlush, EnsureCommit, HandleFlush, HandleCommit, Dirtied, Complete, CommitReply;
  }

  lemma AskIsAsked(s: Sys, w: Waiter)
    requires Inv(s) && w in s.asks
    ensures w in s.asked && w != Nobody
  {
  }

  /**
    What a blocking flush with stable writes promises: it is answered only when all that was dirty
    or in flight when it was asked for, none of which was written then, has been written; and it is
    answered by the end of the second round of flushing after that.
   */
  lemma FlushPromise(ss: seq<Sys>, evs: seq<Event>, n: nat, m: nat)
    requires Run(ss, evs) && n < m <= |evs|
    requires evs[n].Flush? && evs[n].w != Nobody && ss[n].f.stable
    ensures var must, w := Set(ss[n].f.dirty) + Set(ss[n].f.inflight), evs[n].w;
            && must !! ss[n].written
            && (w in ss[m].f.answered ==> must <= ss[m].written)
            && (ss[n].round + 2 <= ss[m].round ==> w in ss[m].f.answered)
  {
    hide Next, Control, AskOk, Waiting;
    var s, ev := ss[n], evs[n];
    RunInv(ss, evs, n);
    MustIsLive(s);
    assert Enabled(s, ev) && ss[n + 1] == Next(s, ev);
    AskRecorded(s, ev);
    AskStays(ss, evs, n + 1, m, ev.w);
    RunInv(ss, evs, m);
    AskAnswered(ss[m], ev.w);
  }

  lemma MustIsLive(s: Sys)
    requires OnePlace(s)
    ensures Set(s.f.dirty) + Set(s.f.inflight) !! s.written
  {
    forall x | x in Set(s.f.dirty) + Set(s.f.inflight) ensures x !in s.written {
      assert x in multiset(s.f.dirty) || x in multiset(s.f.inflight);
      assert x in Live(s.f);
    }
  }

  lemma AskRecorded(s: Sys, ev: Event)
    requires Enabled(s, ev) && ev.Flush? && ev.w != Nobody && s.f.stable
    ensures ev.w in Next(s, ev).asks
            && Next(s, ev).asks[ev.w] == Ask(s.round, Set(s.f.dirty) + Set(s.f.inflight))
  {
    hide EnsureFlush;
  }

  /** A waiter that asked for a flush two rounds ago is in no queue any more. */
  lemma AskAnswered(s: Sys, w: Waiter)
    requires Control(s) && Waiting(s) && AsksOk(s) && w in s.asks
    ensures w in s.f.answered ==> s.asks[w].items <= s.written
    ensures s.asks[w].round + 2 <= s.round ==> w in s.f.answered
  {
    assert AskOk(s, w, s.asks[w]);
    if w in Waiters(s.f.ftgtq) { QueuedIsRecent(s, w, s.asks[w]); }
    PendingGone(s.f);
    assert w in multiset(s.f.answered) + multiset(Waiters(s.f.ftgtq)) + multiset(Waiters(s.f.ctgtq));
  }

  lemma QueuedIsRecent(s: Sys, w: Waiter, a: Ask)
    requires AskOk(s, w, a) && w in Waiters(s.f.ftgtq)
    ensures s.round <= a.round + 1
  {
    ListedWaiter(s.f.ftgtq, w);
    var k :| 0 <= k < |s.f.ftgtq| && s.f.ftgtq[k].waiter == w;
    assert TargetOk(s, s.f.ftgtq[k], a);
  }

  /** What can be reached, flushing_seq_num plus the dirty bytes, never shrinks. */
  lemma ReachNeverShrinks(ss: seq<Sys>, evs: seq<Event>, n: nat)
    requires Run(ss, evs) && n < |evs|
    ensures ss[n].f.flushing + Bytes(ss[n].f.dirty) <= ss[n + 1].f.flushing + Bytes(ss[n + 1].f.dirty)
  {
    hide Kept, EnsureFlush, EnsureCommit, Insert, Next;
    RunInv(ss, evs, n);
    var s, ev := ss[n], evs[n];
    assert Enabled(s, ev) && ss[n + 1] == Next(s, ev);
    StepReach(s, ev);
  }

  lemma StepReach(s: Sys, ev: Event)
    requires Control(s) && Enabled(s, ev)
    ensures var s' := Next(s, ev); s.f.flushing + Bytes(s.f.dirty) <= s'.f.flushing + Bytes(s'.f.dirty)
  {
    hide Kept, EnsureFlush, EnsureCommit, HandleFlush, HandleCommit, Insert, Complete, CommitReply, InsertAll;
    match ev
    case Write(it) => InsertBytes(s.f.dirty, it);
    case Flush(w, late) =>
      FreshPositive(late, s.nextId);
      FlushReach(s.f, w, false, late);
    case Commit(w, full, mdeb, late) =>
      FreshPositive(late, s.nextId);
      CommitReach(s.f, w, full, mdeb, late);
    case FlushEnds(i, j) => CompleteReach(s.f, i, j);
    case FlushCallback =>
      if Handles(s.f) {
        HandleFlushKeeps(s.f);
        HandleReach(s.f);
      } else {
        NotHandled(s.f);
      }
    case CommitEnds => CompleteReach(s.f, 0, 0);
    case CommitCallback =>
      HandleReach(s.f);
    case _ =>
  }

  lemma CompleteReach(f: Fc, i: nat, j: nat)
    requires i <= j <= |f.inflight|
    ensures Complete(f, i, j).flushing == f.flushing && Complete(f, i, j).dirty == f.dirty
    ensures CommitReply(f).flushing == f.flushing && CommitReply(f).dirty == f.dirty
  {
  }

  lemma HandleReach(f: Fc)
    requires Kept(f) && Handles(f)
    ensures f.flushing + Bytes(f.dirty) <= HandleFlush(f).flushing + Bytes(HandleFlush(f).dirty)
    ensures f.flushing + Bytes(f.dirty) <= HandleCommit(f).flushing + Bytes(HandleCommit(f).dirty)
  {
    hide Kept, Sync, PopFlush, PopCommit, Contiguous;
    PopFlushKeeps(f);
    PopCommitKeeps(f);
    SyncReach(PopFlush(f));
    SyncReach(PopCommit(f));
  }

  lemma SyncReach(f: Fc)
    requires Kept(f) && !f.commitInProgress
    ensures var h := Sync(f, Picked(f)); f.flushing + Bytes(f.dirty) <= h.flushing + Bytes(h.dirty)
  {
    hide Kept, Sync, Contiguous;
    if Picked(f) == 0 {
      SyncNothing(f);
    } else {
      SyncKeeps(f, Picked(f));
    }
  }

  // ---------------------------------------------------------------- where the guards are needed

  lemma Extend(ss: seq<Sys>, evs: seq<Event>, ev: Event)
    requires Run(ss, evs) && Enabled(ss[|evs|], ev)
    ensures Run(ss + [Next(ss[|evs|], ev)], evs + [ev])
  {
    hide Next, Enabled;
    var ss', evs' := ss + [Next(ss[|evs|], ev)], evs + [ev];
    forall k | 0 <= k < |evs'| ensures Enabled(ss'[k], evs'[k]) && ss'[k + 1] == Next(ss'[k], evs'[k]) {
      if k < |evs| { assert Enabled(ss[k], evs[k]); }
    }
  }

  const A := Item(0, 0, 1)
  const B := Item(1, 1, 1)

  lemma TwoBytes()
    ensures Bytes([A, B]) == 2 && Bytes([A]) == 1 && Bytes([B]) == 1 && Contiguous([A, B]) == 2
  {
    assert [A, B][1..] == [B] && [B][1..] == [] && [A][1..] == [];
    assert Contiguous([B]) == 1 && Bytes([B]) == 1;
  }

  /** Two items written with unstable writes and asked to be committed. */
  lemma TwoInFlight() returns (ss: seq<Sys>, evs: seq<Event>)
    ensures Run(ss, evs)
    ensures ss[|evs|] == Sys(Fc(2, 0, 0, 0, true, [Tgt(2, Nobody, false)], [Tgt(2, Task(0), false)],
                                false, 2, false, [], [A, B], [], []),
                             0, 0, multiset{Task(0)}, map[], 0, {}, 2)
  {
    var s0 := Sys(Fc(0, 0, 0, 0, false, [], [], false, 0, false, [], [], [], []), 0, 0, multiset{}, map[], 0, {}, 0);
    assert Run([s0], []);
    Extend([s0], [], Write(A));
    var s1 := Next(s0, Write(A));
    Extend([s0] + [s1], [] + [Write(A)], Write(B));
    var s2 := Next(s1, Write(B));
    assert s2.f.dirty == [A, B];
    TwoBytes();
    var ev := Commit(Task(0), false, 0, []);
    Extend([s0] + [s1] + [s2], [] + [Write(A)] + [Write(B)], ev);
    TwoSent(s2.f);
    ss, evs := [s0] + [s1] + [s2] + [Next(s2, ev)], [] + [Write(A)] + [Write(B)] + [ev];
  }

  lemma TwoSent(f: Fc)
    requires f == Fc(0, 0, 0, 0, false, [], [], false, 0, false, [A, B], [], [], [])
    ensures EnsureCommit(f, Task(0), false, 0, [])
            == Fc(2, 0, 0, 0, true, [Tgt(2, Nobody, false)], [Tgt(2, Task(0), false)], false, 2, false, [], [A, B], [], [])
  {
    TwoBytes();
    assert [A, B][..2] == [A, B] && [A, B][2..] == [];
  }

  /** Both backend writes have ended and the first callback has started the commit; the second waits for the lock. */
  lemma CommitUnderWay() returns (ss: seq<Sys>, evs: seq<Event>)
    ensures Run(ss, evs)
    ensures ss[|evs|] == Sys(Fc(2, 2, 2, 0, true, [], [Tgt(2, Task(0), false)], false, 2, true, [], [], [A, B], []),
                             1, 0, multiset{Task(0)}, map[], 0 + 1, {}, 2)
  {
    hide Run;
    ss, evs := TwoInFlight();
    RunLength(ss, evs);
    var s3 := ss[|evs|];
    Extend(ss, evs, FlushEnds(0, 1));
    var s4 := Next(s3, FlushEnds(0, 1));
    TwoEnd(s3.f);
    Extend(ss + [s4], evs + [FlushEnds(0, 1)], FlushEnds(0, 1));
    var s5 := Next(s4, FlushEnds(0, 1));
    Extend(ss + [s4] + [s5], evs + [FlushEnds(0, 1)] + [FlushEnds(0, 1)], FlushCallback);
    TwoHandled(s5.f);
    ss, evs := ss + [s4] + [s5] + [Next(s5, FlushCallback)],
      evs + [FlushEnds(0, 1)] + [FlushEnds(0, 1)] + [FlushCallback];
  }

  lemma RunLength(ss: seq<Sys>, evs: seq<Event>)
    requires Run(ss, evs)
    ensures |ss| == |evs| + 1
  {
  }

  lemma TwoEnd(f: Fc)
    requires f == Fc(2, 0, 0, 0, true, [Tgt(2, Nobody, false)], [Tgt(2, Task(0), false)], false, 2, false, [], [A, B], [], [])
    ensures Complete(f, 0, 1) == f.(inflight := [B], flushed := 1, pending := [A])
    ensures Complete(Complete(f, 0, 1), 0, 1) == f.(inflight := [], flushed := 2, pending := [A, B])
  {
    TwoBytes();
    assert [A, B][0..1] == [A] && [B][0..1] == [B] && [A][1..] == [] && [B][1..] == [];
    assert InsertAll([], [A]) == Insert([], A) == [A];
    assert InsertAll([A], [B]) == Insert([A], B) == [A] + Insert([], B);
  }

  lemma TwoHandled(f: Fc)
    requires f == Fc(2, 2, 0, 0, true, [Tgt(2, Nobody, false)], [Tgt(2, Task(0), false)], false, 2, false, [], [], [A, B], [])
    ensures HandleFlush(f) == Fc(2, 2, 2, 0, true, [], [Tgt(2, Task(0), false)], false, 2, true, [], [], [A, B], [])
  {
    TwoBytes();
    assert f.ftgtq[1..] == [] && f.ftgtq[..1] == f.ftgtq;
    assert Met(f.ftgtq, 2) == 1;
    assert Waiters(f.ftgtq) == [];
  }

  /**
    A run in which a flush callback that waited for the lock all through a commit gets it before the
    commit's own callback: it finds the target of that commit still queued and starts a commit of nothing.
   */
  lemma StaleCallbackCommitsNothing() returns (ss: seq<Sys>, evs: seq<Event>)
    ensures Run(ss, evs)
    ensures var s := ss[|evs|];
            && 0 < s.cbs && 0 < s.ccbs && Handles(s.f)
            && s.f.pending == [] && HandleFlush(s.f) == StartCommit(PopFlush(s.f))
  {
    hide Run;
    ss, evs := CommitUnderWay();
    RunLength(ss, evs);
    Extend(ss, evs, CommitEnds);
    ss, evs := ss + [Next(ss[|evs|], CommitEnds)], evs + [CommitEnds];
    TwoBytes();
  }

  /** In every run: a flush callback that enters between the end of a commit and its callback commits nothing. */
  lemma WindowCommitsNothing(ss: seq<Sys>, evs: seq<Event>, n: nat)
    requires Run(ss, evs) && n <= |evs| && 0 < ss[n].ccbs
    ensures var f := ss[n].f;
            && Handles(f) && f.pending == [] && HandleFlush(f) == StartCommit(PopFlush(f))
            && HandleFlush(f).committing == f.committing
  {
    hide Kept, Sync, PopFlush, Contiguous;
    RunInv(ss, evs, n);
    NothingPending(ss[n].f);
    PopFlushKeeps(ss[n].f);
  }

  lemma NothingPending(f: Fc)
    requires Kept(f) && !f.stable && f.committed == f.flushed
    ensures f.pending == []
  {
    BytesPositive(f.pending);
  }

  /**
    A flush asked for with nothing dirty while a commit is under way: its target is reached when it is
    queued, nobody looks at it when the commit ends, and the machine is left running with nothing
    under way.
   */
  lemma EmptyFlushStalls() returns (ss: seq<Sys>, evs: seq<Event>)
    ensures Run(ss, evs)
    ensures var s := ss[|evs|];
            && s.cbs == 0 && s.ccbs == 0 && s.f.commitInProgress && s.f.dirty == []
            && var f := HandleCommit(CommitReply(EnsureFlush(s.f, Task(1), false, [])));
            f.running && f.inflight == [] && !f.commitInProgress && Waiters(f.ftgtq) == [Task(1)]
  {
    hide Run;
    ss, evs := CommitUnderWay();
    RunLength(ss, evs);
    var s := ss[|evs|];
    Extend(ss, evs, FlushCallback);
    ss, evs := ss + [Next(s, FlushCallback)], evs + [FlushCallback];
    EmptyFlush(s.f);
  }

  lemma EmptyFlush(f: Fc)
    requires f == Fc(2, 2, 2, 0, true, [], [Tgt(2, Task(0), false)], false, 2, true, [], [], [A, B], [])
    ensures var g := HandleCommit(CommitReply(EnsureFlush(f, Task(1), false, [])));
            g.running && g.inflight == [] && !g.commitInProgress && Waiters(g.ftgtq) == [Task(1)]
  {
    TwoBytes();
    var q := [Tgt(2, Task(1), false)];
    assert EnsureFlush(f, Task(1), false, []).ftgtq == q;
    assert q[1..] == [] && Waiters(q) == [Task(1)];
  }

  /**
    If a backend write has cleared the flags of its chunks but not yet added them to flushed_seq_num,
    a callback can pass the tests under the lock; the two sequence numbers then differ.
   */
  lemma CountingMustBeAtomic(f: Fc, i: nat, j: nat)
    requires Kept(f) && i < j <= |f.inflight|
    ensures var g := f.(inflight := f.inflight[..i] + f.inflight[j..]);
            (Handles(g) <==> i == 0 && j == |f.inflight|) && (Handles(g) ==> g.flushed < g.flushing)
  {
    BytesPositive(f.inflight);
  }

  /** The assertion on the amount: what a flush takes now reaches the goal. */
  predicate Reaches(f: Fc, goal: nat) {
    goal <= f.flushing + Bytes(f.dirty[..Picked(f)])
  }

  /** Every goal that a target may have, given what is dirty now, is reached by the next flush. */
  ghost predicate AllReached(f: Fc) {
    forall goal: nat :: goal <= f.flushing + Bytes(f.dirty) ==> Reaches(f, goal)
  }

  /** That is so if and only if writes are stable or the dirty data is contiguous. */
  lemma EnoughIffContiguous(f: Fc)
    requires Kept(f)
    ensures AllReached(f) <==> f.stable || Contiguous(f.dirty) == |f.dirty|
  {
    hide Contiguous;
    var n := Picked(f);
    BytesSplit(f.dirty, n);
    assert Positive(f.dirty[n..]);
    BytesPositive(f.dirty[n..]);
    assert Reaches(f, f.flushing + Bytes(f.dirty)) <==> Bytes(f.dirty[n..]) == 0;
  }

  /** Then a triggered flush takes at least what the next goal asks for. */
  lemma ContiguousIsEnough(f: Fc)
    requires Kept(f) && (f.flushing < Front(f.ftgtq) || f.flushing < Front(f.ctgtq))
    requires f.stable || Contiguous(f.dirty) == |f.dirty|
    ensures Reaches(f, Max(Front(f.ftgtq), Front(f.ctgtq)))
  {
    EnoughIffContiguous(f);
    GoalNeedsDirty(f);
  }

  const START := Sys(Fc(0, 0, 0, 0, false, [], [], false, 0, false, [], [], [], []), 0, 0, multiset{}, map[], 0, {}, 0)
  const FAR := Item(2, 9, 1)

  /** One item in flight, written with unstable writes. */
  lemma OneInFlight() returns (ss: seq<Sys>, evs: seq<Event>)
    ensures Run(ss, evs)
    ensures ss[|evs|] == START.(f := Fc(1, 0, 0, 0, true, [Tgt(1, Nobody, false)], [], false, 1, false, [], [A], [], []),
                                nextId := 1)
  {
    assert Run([START], []);
    Extend([START], [], Write(A));
    var s1 := Next(START, Write(A));
    var ev := Flush(Nobody, []);
    Extend([START] + [s1], [] + [Write(A)], ev);
    OneSent(s1.f);
    NobodyAsked(multiset{});
    ss, evs := [START] + [s1] + [Next(s1, ev)], [] + [Write(A)] + [ev];
  }

  lemma OneSent(f: Fc)
    requires f == Fc(0, 0, 0, 0, false, [], [], false, 0, false, [A], [], [], [])
    ensures EnsureFlush(f, Nobody, false, [])
            == Fc(1, 0, 0, 0, true, [Tgt(1, Nobody, false)], [], false, 1, false, [], [A], [], [])
  {
    TwoBytes();
    assert Contiguous([A]) == 1 && [A][..1] == [A] && [A][1..] == [];
  }

  lemma GapBytes()
    ensures Bytes([B, FAR]) == 2 && Bytes([B]) == 1 && Contiguous([B, FAR]) == 1
    ensures Insert([], B) == [B] && Insert([B], FAR) == [B, FAR]
  {
    TwoBytes();
    assert [B, FAR][1..] == [FAR] && [FAR][1..] == [] && [B][1..] == [];
    assert Bytes([FAR]) == 1;
    assert Insert([B], FAR) == [B] + Insert([], FAR);
  }

  /** While it is in flight two items with a gap between them are written, and a flush of both is asked for. */
  lemma GapWritten() returns (ss: seq<Sys>, evs: seq<Event>)
    ensures Run(ss, evs)
    ensures ss[|evs|] == START.(f := Fc(1, 0, 0, 0, true, [Tgt(1, Nobody, false), Tgt(3, Task(0), false)], [],
                                        false, 1, false, [B, FAR], [A], [], []),
                                nextId := 3, asked := multiset{Task(0)})
  {
    hide Run;
    ss, evs := OneInFlight();
    RunLength(ss, evs);
    GapBytes();
    var s1 := Next(ss[|evs|], Write(B));
    Extend(ss, evs, Write(B));
    var s2 := Next(s1, Write(FAR));
    Extend(ss + [s1], evs + [Write(B)], Write(FAR));
    var ev := Flush(Task(0), []);
    Extend(ss + [s1] + [s2], evs + [Write(B)] + [Write(FAR)], ev);
    ss, evs := ss + [s1] + [s2] + [Next(s2, ev)], evs + [Write(B)] + [Write(FAR)] + [ev];
  }

  /**
    A run after which a flush callback finds a gap in the dirty data: it takes the first item only, less
    than the target at the front of the queue asks for.
   */
  lemma GapIsNotEnough() returns (ss: seq<Sys>, evs: seq<Event>)
    ensures Run(ss, evs)
    ensures var s := ss[|evs|];
            && Enabled(s, FlushCallback) && Handles(s.f)
            && var f := PopFlush(s.f);
            f.flushing < Front(f.ftgtq) && !Reaches(f, Front(f.ftgtq))
  {
    hide Run;
    ss, evs := GapWritten();
    RunLength(ss, evs);
    var s := ss[|evs|];
    Extend(ss, evs, FlushEnds(0, 1));
    ss, evs := ss + [Next(s, FlushEnds(0, 1))], evs + [FlushEnds(0, 1)];
    GapBytes();
    GapFlushed(s.f);
  }

  lemma GapFlushed(f: Fc)
    requires f == Fc(1, 0, 0, 0, true, [Tgt(1, Nobody, false), Tgt(3, Task(0), false)], [],
                     false, 1, false, [B, FAR], [A], [], [])
    ensures var g := Complete(f, 0, 1);
            && Handles(g) && PopFlush(g).ftgtq == [Tgt(3, Task(0), false)]
            && PopFlush(g).flushing == 1 && PopFlush(g).dirty == [B, FAR] && !PopFlush(g).stable
            && !Reaches(PopFlush(g), 3)
  {
    TwoBytes();
    GapBytes();
    assert f.inflight[0..1] == [A];
    assert f.ftgtq[1..] == [Tgt(3, Task(0), false)];
    assert Met(f.ftgtq[1..], 1) == 0;
    assert Met(f.ftgtq, 1) == 1;
    assert [B, FAR][..1] == [B];
  }

  /** ensure_commit() on a running machine keeps the commit queue in order if and only if the last goal is not above the new one. */
  lemma CommitQueueSortedIff(f: Fc, w: Waiter, full: bool, mdeb: nat, late: seq<Item>)
    requires f.running && CommitBytes(f, full, mdeb) != 0 && Ascending(f.ctgtq)
    ensures Ascending(EnsureCommit(f, w, full, mdeb, late).ctgtq) <==>
            f.ctgtq == [] || f.ctgtq[|f.ctgtq| - 1].goal <= CommitGoal(f, full, mdeb)
  {
    hide EnsureFlush;
    var q := EnsureCommit(f, w, full, mdeb, late).ctgtq;
    assert q == f.ctgtq + [Tgt(CommitGoal(f, full, mdeb), w, full)];
    if f.ctgtq != [] {
      assert q[|f.ctgtq| - 1] == f.ctgtq[|f.ctgtq| - 1] && q[|f.ctgtq|].goal == CommitGoal(f, full, mdeb);
    }
  }

  const LONG := Item(1, 1, 20)

  /** One byte in flight with a commit asked for. */
  lemma OneCommit() returns (ss: seq<Sys>, evs: seq<Event>)
    ensures Run(ss, evs)
    ensures ss[|evs|] == START.(f := Fc(1, 0, 0, 0, true, [Tgt(1, Nobody, false)], [Tgt(1, Task(1), false)],
                                        false, 1, false, [], [A], [], []),
                                nextId := 1, asked := multiset{Task(1)})
  {
    assert Run([START], []);
    Extend([START], [], Write(A));
    var s1 := Next(START, Write(A));
    var ev := Commit(Task(1), false, 0, []);
    Extend([START] + [s1], [] + [Write(A)], ev);
    FirstCommit(s1.f);
    ss, evs := [START] + [s1] + [Next(s1, ev)], [] + [Write(A)] + [ev];
  }

  /** Then 20 bytes more are written and asked to be committed. */
  lemma TwoCommits() returns (ss: seq<Sys>, evs: seq<Event>)
    ensures Run(ss, evs)
    ensures ss[|evs|].f == Fc(1, 0, 0, 0, true, [Tgt(1, Nobody, false)], [Tgt(1, Task(1), false), Tgt(20, Task(2), false)],
                              false, 1, false, [LONG], [A], [], [])
    ensures ss[|evs|].nextId == 2 && ss[|evs|].asked == multiset{Task(1), Task(2)}
  {
    hide Run;
    ss, evs := OneCommit();
    RunLength(ss, evs);
    var s1 := Next(ss[|evs|], Write(LONG));
    Extend(ss, evs, Write(LONG));
    SecondCommit(s1.f);
    var ev := Commit(Task(2), false, 0, []);
    Extend(ss + [s1], evs + [Write(LONG)], ev);
    ss, evs := ss + [s1] + [Next(s1, ev)], evs + [Write(LONG)] + [ev];
  }

  lemma FirstCommit(f: Fc)
    requires f == Fc(0, 0, 0, 0, false, [], [], false, 0, false, [A], [], [], [])
    ensures EnsureCommit(f, Task(1), false, 0, [])
            == Fc(1, 0, 0, 0, true, [Tgt(1, Nobody, false)], [Tgt(1, Task(1), false)], false, 1, false, [], [A], [], [])
  {
    TwoBytes();
    OneSent(f);
  }

  lemma SecondCommit(f: Fc)
    requires f == Fc(1, 0, 0, 0, true, [Tgt(1, Nobody, false)], [Tgt(1, Task(1), false)], false, 1, false, [LONG], [A], [], [])
    ensures EnsureCommit(f, Task(2), false, 0, [])
            == f.(ctgtq := [Tgt(1, Task(1), false), Tgt(20, Task(2), false)])
  {
    assert [LONG][1..] == [] && Bytes([LONG]) == 20;
  }

  /** A run that leaves the commit queue out of order: a later, smaller goal is compared with the front only. */
  lemma CommitQueueUnsorted() returns (ss: seq<Sys>, evs: seq<Event>)
    ensures Run(ss, evs) && !Ascending(ss[|evs|].f.ctgtq)
  {
    hide Run;
    ss, evs := TwoCommits();
    RunLength(ss, evs);
    var s := ss[|evs|];
    var s1 := Next(s, FlushEnds(0, 1));
    Extend(ss, evs, FlushEnds(0, 1));
    var ev := Commit(Task(3), false, 0, []);
    Extend(ss + [s1], evs + [FlushEnds(0, 1)], ev);
    ThirdCommit(s.f);
    ss, evs := ss + [s1] + [Next(s1, ev)], evs + [FlushEnds(0, 1)] + [ev];
  }

  lemma ThirdCommit(f: Fc)
    requires f == Fc(1, 0, 0, 0, true, [Tgt(1, Nobody, false)], [Tgt(1, Task(1), false), Tgt(20, Task(2), false)],
                     false, 1, false, [LONG], [A], [], [])
    ensures !Ascending(EnsureCommit(Complete(f, 0, 1), Task(3), false, 0, []).ctgtq)
  {
    TwoBytes();
    assert f.inflight[0..1] == [A] && InsertAll([], [A]) == [A];
    var q := EnsureCommit(Complete(f, 0, 1), Task(3), false, 0, []).ctgtq;
    assert q[1].goal == 20 && q[2].goal == 1;
  }
}
